/**
  Histories of a GMConnector: edits of its spec, reconcile passes that succeed or fail at any point,
  status updates, and resources that vanish behind the controller's back. When are there orphans, and
  what does the status string say?
 */
module ControllerRuns {
  import opened Graph
  import opened Manifests
  import opened ConnectorStatus
  import opened Controller
  import opened Text

  /** The owned resources that exist, the current spec, and the persisted status. */
  datatype Snapshot = Snapshot(cluster: set<Resource>, spec: Spec, annotations: Annotations, status: string)
  {
    function Recorded(): set<Resource> {
      ConnectorStatus.Recorded(annotations.Keys)
    }
  }

  /** Leak: a pass that succeeds although some delete failed. Update: a deployment changed. */
  datatype Move = Edit | Succeed | Leak | Fail | Vanish | Update(probe: Prober)

  ghost predicate PassBounds(wanted: set<Resource>, s: Snapshot, t: Snapshot) {
    && t.spec == s.spec
    && t.cluster <= s.cluster + wanted
    && s.cluster - (s.Recorded() - wanted) <= t.cluster
  }

  /** The external steps of a spec. */
  ghost function External(spec: Spec): nat {
    SumExternal(spec.nodes, spec.nodes.Keys)
  }

  ghost predicate SameStatus(s: Snapshot, t: Snapshot) {
    t.annotations == s.annotations && t.status == s.status
  }

  /** The status a pass that succeeds writes. */
  ghost predicate NewStatus(wanted: set<Resource>, t: Snapshot) {
    && t.Recorded() == wanted
    && WellKeyed(t.annotations.Keys) && t.annotations != map[]
    && StatusOk(t.annotations, t.status, External(t.spec))
  }

  ghost predicate Moves(files: Files, s: Snapshot, m: Move, t: Snapshot) {
    var wanted := Wanted(files, s.spec);
    match m
    case Edit => t.cluster == s.cluster && SameStatus(s, t)
    case Vanish => t.cluster <= s.cluster && t.spec == s.spec && SameStatus(s, t)
    case Fail => PassBounds(wanted, s, t) && SameStatus(s, t)
    case Leak => PassBounds(wanted, s, t) && NewStatus(wanted, t) && wanted <= t.cluster
    case Succeed =>
      PassBounds(wanted, s, t) && NewStatus(wanted, t) && t.cluster == s.cluster + wanted - (s.Recorded() - wanted)
    case Update(probe) =>
      && t.cluster == s.cluster && t.spec == s.spec
      && (SameStatus(s, t) || Collection(s.annotations, s.status, probe) == Updated(t.annotations, t.status))
  }

  ghost function Snap(api: ApiServer): Snapshot
    reads api
  {
    Snapshot(api.cluster, api.spec, api.annotations, api.status)
  }

  /** Every reconcile pass of the code is a move. */
  method Pass(api: ApiServer, files: Files, probe: Prober) returns (m: Move)
    requires WellKeyed(api.annotations.Keys)
    modifies api
    ensures WellKeyed(api.annotations.Keys)
    ensures m.Succeed? || m.Leak? || m.Fail?
    ensures Moves(files, old(Snap(api)), m, Snap(api))
  {
    var ok, deleted, _ := Reconcile(api, files, probe);
    m := if !ok then Fail else if deleted then Succeed else Leak;
  }

  /** So is every status update. */
  method UpdateMove(api: ApiServer, files: Files, probe: Prober)
    modifies api
    ensures Moves(files, old(Snap(api)), Update(probe), Snap(api))
  {
    var _ := HandleStatusUpdate(api, probe);
  }

  ghost predicate IsRun(files: Files, states: seq<Snapshot>, moves: seq<Move>) {
    && |states| == |moves| + 1
    && forall i {:trigger moves[i]} :: 0 <= i < |moves| ==> Moves(files, states[i], moves[i], states[i + 1])
  }

  /** Has a pass failed since the last one that succeeded? */
  predicate FailedSince(moves: seq<Move>, i: nat)
    requires i <= |moves|
  {
    i > 0 && (moves[i - 1].Fail? || (!moves[i - 1].Succeed? && FailedSince(moves, i - 1)))
  }

  /** Deletes succeed, and a failed pass is made good before the spec is edited. */
  predicate Clean(moves: seq<Move>) {
    forall i :: 0 <= i < |moves| ==> !moves[i].Leak? && (moves[i].Edit? ==> !FailedSince(moves, i))
  }

  // ----- no orphans, nothing missing -----

  /** When a pass succeeds, the cluster is as wanted just if what was there was recorded or wanted. */
  lemma SuccessIsExact(files: Files, s: Snapshot, t: Snapshot)
    requires Moves(files, s, Succeed, t)
    ensures t.cluster == Wanted(files, t.spec) <==> s.cluster <= s.Recorded() + Wanted(files, s.spec)
    ensures t.Recorded() == Wanted(files, t.spec)
  {
    var wanted := Wanted(files, s.spec);
    if t.cluster == wanted {
      forall r | r in s.cluster
        ensures r in s.Recorded() + wanted
      {
        assert r !in s.Recorded() - wanted ==> r in t.cluster;
      }
    }
  }

  /** Updates change values and counts, never what is recorded. */
  lemma UpdateKeepsRecorded(files: Files, s: Snapshot, probe: Prober, t: Snapshot)
    requires Moves(files, s, Update(probe), t)
    ensures t.annotations.Keys == s.annotations.Keys && t.Recorded() == s.Recorded()
  {
  }

  /** In a clean run whatever exists is recorded, or wanted since a failed pass. */
  lemma {:induction false} CleanInv(files: Files, states: seq<Snapshot>, moves: seq<Move>, i: nat)
    requires IsRun(files, states, moves) && Clean(moves)
    requires states[0].cluster <= states[0].Recorded()
    requires i <= |moves|
    ensures states[i].cluster <= states[i].Recorded() + if FailedSince(moves, i) then Wanted(files, states[i].spec) else {}
  {
    if i > 0 {
      CleanInv(files, states, moves, i - 1);
      var s, t := states[i - 1], states[i];
      assert Moves(files, s, moves[i - 1], t);
      match moves[i - 1]
      case Succeed => SuccessIsExact(files, s, t);
      case Update(probe) => UpdateKeepsRecorded(files, s, probe, t);
      case _ =>
    }
  }

  /**
    After every successful pass of a clean run the owned resources are the recorded ones are the
    wanted ones. Edits may be of any kind, passes may fail anywhere and any number of times, and
    resources may vanish and deployments change in between.
   */
  lemma NoOrphansNothingMissing(files: Files, states: seq<Snapshot>, moves: seq<Move>, i: nat)
    requires IsRun(files, states, moves) && Clean(moves)
    requires states[0].cluster <= states[0].Recorded()
    requires i < |moves| && moves[i].Succeed?
    ensures states[i + 1].cluster == states[i + 1].Recorded() == Wanted(files, states[i + 1].spec)
  {
    CleanInv(files, states, moves, i);
    assert Moves(files, states[i], moves[i], states[i + 1]);
    SuccessIsExact(files, states[i], states[i + 1]);
  }

  // ----- the status string -----

  /** The external steps of the spec of the last pass that succeeded, failed deletes or not. */
  ghost function LastExternal(states: seq<Snapshot>, moves: seq<Move>, i: nat): nat
    requires i <= |moves| < |states|
  {
    if i == 0 then 0
    else if moves[i - 1].Succeed? || moves[i - 1].Leak? then External(states[i - 1].spec)
    else LastExternal(states, moves, i - 1)
  }

  lemma MoveKeepsStatus(files: Files, s: Snapshot, m: Move, t: Snapshot, external: nat)
    requires Moves(files, s, m, t) && WellKeyed(s.annotations.Keys) && StatusOk(s.annotations, s.status, external)
    ensures WellKeyed(t.annotations.Keys)
    ensures StatusOk(t.annotations, t.status, if m.Succeed? || m.Leak? then External(s.spec) else external)
  {
    if m.Update? && !SameStatus(s, t) {
      CollectionKeepsStatus(s.annotations, s.status, external, m.probe);
    }
  }

  lemma {:induction false} StatusInv(files: Files, states: seq<Snapshot>, moves: seq<Move>, i: nat)
    requires IsRun(files, states, moves) && states[0].annotations == map[]
    requires i <= |moves|
    ensures WellKeyed(states[i].annotations.Keys)
    ensures StatusOk(states[i].annotations, states[i].status, LastExternal(states, moves, i))
  {
    if i > 0 {
      StatusInv(files, states, moves, i - 1);
      MoveKeepsStatus(files, states[i - 1], moves[i - 1], states[i], LastExternal(states, moves, i - 1));
    }
  }

  /**
    In every state of every history, clean or not, that began with nothing recorded: once anything is
    recorded the status string splits into three counts, ready, external and total; ready is at most
    total, total is the number of Deployment keys, and external is the count of the last pass that
    succeeded. So no later collection can fail on it.
   */
  lemma StatusAlwaysParses(files: Files, states: seq<Snapshot>, moves: seq<Move>, i: nat, probe: Prober)
    requires IsRun(files, states, moves) && states[0].annotations == map[]
    requires i <= |moves| && states[i].annotations != map[]
    ensures
      var parts := Split(states[i].status, '/');
      && |parts| == 3
      && Atoi(parts[0]).Some? && Atoi(parts[0]).value <= |DeploymentKeys(states[i].annotations.Keys)|
      && ParseInt(parts[1]) == Some(LastExternal(states, moves, i))
      && Atoi(parts[2]) == Some(|DeploymentKeys(states[i].annotations.Keys)|)
    ensures Collection(states[i].annotations, states[i].status, probe).Updated?
  {
    StatusInv(files, states, moves, i);
    var s, external := states[i], LastExternal(states, moves, i);
    var ready: nat :| ready <= |DeploymentKeys(s.annotations.Keys)| &&
                      s.status == Format(ready, external, |DeploymentKeys(s.annotations.Keys)|);
    FormatParses(ready, external, |DeploymentKeys(s.annotations.Keys)|);
    CollectionKeepsStatus(s.annotations, s.status, external, probe);
  }

  // ----- where the code does leave orphans -----

  ghost predicate Ignores(files: Files, s: Snapshot, m: Move, r: Resource) {
    r !in Wanted(files, s.spec) && !m.Vanish?
  }

  lemma OrphanStep(files: Files, s: Snapshot, m: Move, t: Snapshot, r: Resource)
    requires Moves(files, s, m, t) && Ignores(files, s, m, r)
    requires r in s.cluster && r !in s.Recorded()
    ensures r in t.cluster && r !in t.Recorded()
  {
    if m.Update? {
      UpdateKeepsRecorded(files, s, m.probe, t);
    }
  }

  /** An unrecorded resource that no later spec wants is never removed by the controller. */
  lemma {:induction false} OrphanStays(files: Files, states: seq<Snapshot>, moves: seq<Move>, r: Resource, from: nat, i: nat)
    requires IsRun(files, states, moves) && from <= i <= |moves|
    requires r in states[from].cluster && r !in states[from].Recorded()
    requires forall k {:trigger moves[k]} :: from <= k < i ==> Ignores(files, states[k], moves[k], r)
    ensures r in states[i].cluster && r !in states[i].Recorded()
  {
    if from < i {
      OrphanStays(files, states, moves, r, from, i - 1);
      OrphanStep(files, states[i - 1], moves[i - 1], states[i], r);
    }
  }

  /** A spec every pass can be granted: all manifests and endpoints there, all names acceptable. */
  ghost predicate Deployable(files: Files, spec: Spec) {
    && Servable(files, spec, spec.nodes.Keys)
    && forall r {:trigger ColonFree(r)} :: r in Wanted(files, spec) ==> ColonFree(r)
  }

  /** Grants every apply; the rest as given. */
  function Granting(delete: Resource -> bool, persist: bool): Script {
    Script((n, r) => true, delete, persist)
  }

  lemma GrantingGoes(files: Files, spec: Spec, delete: Resource -> bool, persist: bool)
    requires Deployable(files, spec)
    ensures AllGo(Granting(delete, persist), Wanted(files, spec))
  {
    forall r | r in Wanted(files, spec)
      ensures Goes(Granting(delete, persist), r)
    {
      assert ColonFree(r);
    }
  }

  /**
    Two passes of the code. The first creates everything but cannot write its status; then the spec is
    edited; the second succeeds, with every delete granted. Whatever only the first spec wanted is an
    orphan.
   */
  method EditAfterFailureOrphans(files: Files, a: Spec, b: Spec, probe: Prober) returns (api: ApiServer)
    requires Deployable(files, a) && Deployable(files, b)
    ensures api.spec == b && WellKeyed(api.annotations.Keys)
    ensures Recorded(api.annotations.Keys) == Wanted(files, b)
    ensures api.cluster == Wanted(files, a) + Wanted(files, b)
  {
    api := new ApiServer(a, Granting(r => true, false));
    GrantingGoes(files, a, r => true, false);
    var ok, deleted, graph := Reconcile(api, files, probe);
    assert Recorded({}) == {};
    assert !ok && api.annotations == map[] && api.cluster == Wanted(files, a);
    api.spec, api.script := b, Granting(r => true, true);
    GrantingGoes(files, b, r => true, true);
    ok, deleted, graph := Reconcile(api, files, probe);
    assert ok;
  }

  /**
    Two passes of the code, both of which succeed. Between them the spec is edited, and in the second
    some deletes fail: what was recorded, is no longer wanted and could not be deleted is an orphan.
   */
  method FailedDeleteOrphans(files: Files, a: Spec, b: Spec, probe: Prober, delete: Resource -> bool) returns (api: ApiServer)
    requires Deployable(files, a) && Deployable(files, b)
    ensures api.spec == b && WellKeyed(api.annotations.Keys)
    ensures Recorded(api.annotations.Keys) == Wanted(files, b)
    ensures api.cluster == Wanted(files, b) + (set r | r in Wanted(files, a) && !delete(r))
  {
    api := new ApiServer(a, Granting(delete, true));
    GrantingGoes(files, a, delete, true);
    var ok, deleted, graph := Reconcile(api, files, probe);
    assert Recorded({}) == {};
    assert ok && api.cluster == Wanted(files, a);
    api.spec := b;
    GrantingGoes(files, b, delete, true);
    ok, deleted, graph := Reconcile(api, files, probe);
    assert ok;
  }
}
