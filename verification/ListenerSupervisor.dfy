/** The reconciling supervisor of the listener tasks, interleaved with the tasks it supervises.

    A `World` is the supervisor's two maps, every task spawned so far, and the statement the
    supervisor is at. A `Label` is one atomic step: one statement of the supervisor, or one
    moment of one task. Whatever the scheduler, the lister and the network decide is in the
    labels, so a run is a sequence of labels and every interleaving is one. */
module ListenerSupervisor {
  import opened Wrappers

  import opened ReconnectBackoff
  import opened EventListener

  type Endpoint = nat

  datatype Status = Listening | Failed

  /** One spawned task: its endpoint, what it has seen so far, and whether its stop signal fired. */
  datatype Job = Job(endpoint: Endpoint, history: seq<Moment>, signalled: bool)

  // The supervisor's position. `left` is what the loop it is in still has to visit.
  datatype Control =
    | Idle
    | Removing(left: set<Endpoint>)
    | Unlinked(e: Endpoint, id: nat, left: set<Endpoint>)   // out of the map, not yet signalled
    | Joining(e: Endpoint, id: nat, left: set<Endpoint>)    // signalled, the join is pending
    | Joined(e: Endpoint, id: nat, left: set<Endpoint>)     // joined, the status is still there
    | Arming(left: set<Endpoint>)
    | Announced(e: Endpoint, left: set<Endpoint>)           // status written, nothing spawned
    | Spawned(e: Endpoint, id: nat, left: set<Endpoint>)    // task running, not yet in the map
    | Signalling(left: set<Endpoint>)
    | Awaiting(left: set<Endpoint>)
    | Finished

  datatype World = World(
    listeners: map<Endpoint, nat>,
    statuses: map<Endpoint, Status>,
    jobs: seq<Job>,
    target: set<Endpoint>,   // what the last sweep that started was given
    control: Control)

  datatype Label =
    | Listed(target: set<Endpoint>)   // a tick whose listing succeeded
    | ListingFailed                   // a tick whose listing failed
    | StopSeen
    | Unlink(e: Endpoint)
    | Signal
    | Join
    | Forget
    | RemovalDone
    | Consider(e: Endpoint)
    | Spawn
    | Link
    | ArmingDone
    | DrainSignal(e: Endpoint)
    | DrainSignalled
    | DrainJoin(e: Endpoint)
    | DrainDone
    | Act(id: nat, m: Moment)

  const START := World(map[], map[], [], {}, Idle)

  predicate HasExited(policy: ReconnectPolicy, job: Job) {
    After(policy, job.history).Some? && After(policy, job.history).value.phase.Exited?
  }

  predicate HasGivenUp(policy: ReconnectPolicy, h: seq<Moment>) {
    After(policy, h).Some? && After(policy, h).value.phase == Exited(GaveUp)
  }

  /** A moment a task can take: its await point can resolve that way, and a stop only resolves
      once the task's own signal fired. */
  predicate CanTake(policy: ReconnectPolicy, history: seq<Moment>, signalled: bool, m: Moment) {
    After(policy, history + [m]).Some? && (m.StopTaken? ==> signalled)
  }

  function TakeMoment(policy: ReconnectPolicy, w: World, id: nat, m: Moment): World
    requires id < |w.jobs|
  {
    var job := w.jobs[id];
    var job' := job.(history := job.history + [m]);
    w.(jobs := w.jobs[id := job'],
       statuses := if HasGivenUp(policy, job'.history) then w.statuses[job.endpoint := Failed] else w.statuses)
  }

  function SignalJob(jobs: seq<Job>, id: nat): seq<Job>
    requires id < |jobs|
  {
    jobs[id := jobs[id].(signalled := true)]
  }

  /** One statement of the supervisor, or None when it is not the one it is at. */
  function Advance(policy: ReconnectPolicy, w: World, l: Label): Option<World> {
    match w.control
    case Idle =>
      if l.Listed? then Some(w.(target := l.target, control := Removing(w.listeners.Keys - l.target)))
      else if l.ListingFailed? then Some(w)
      else if l.StopSeen? then Some(w.(control := Signalling(w.listeners.Keys)))
      else None
    case Removing(left) =>
      if l.Unlink? && l.e in left && l.e in w.listeners
      then Some(w.(listeners := w.listeners - {l.e}, control := Unlinked(l.e, w.listeners[l.e], left - {l.e})))
      else if l.RemovalDone? && left == {} then Some(w.(control := Arming(w.target)))
      else None
    case Unlinked(e, id, left) =>
      if l.Signal? && id < |w.jobs|
      then Some(w.(jobs := SignalJob(w.jobs, id), control := Joining(e, id, left)))
      else None
    case Joining(e, id, left) =>
      if l.Join? && id < |w.jobs| && HasExited(policy, w.jobs[id])
      then Some(w.(control := Joined(e, id, left)))
      else None
    case Joined(e, id, left) =>
      if l.Forget? then Some(w.(statuses := w.statuses - {e}, control := Removing(left))) else None
    case Arming(left) =>
      if l.Consider? && l.e in left then
        if l.e in w.listeners then Some(w.(control := Arming(left - {l.e})))
        else Some(w.(statuses := w.statuses[l.e := Listening], control := Announced(l.e, left - {l.e})))
      else if l.ArmingDone? && left == {} then Some(w.(control := Idle))
      else None
    case Announced(e, left) =>
      if l.Spawn?
      then Some(w.(jobs := w.jobs + [Job(e, [], false)], control := Spawned(e, |w.jobs|, left)))
      else None
    case Spawned(e, id, left) =>
      if l.Link? then Some(w.(listeners := w.listeners[e := id], control := Arming(left))) else None
    case Signalling(left) =>
      if l.DrainSignal? && l.e in left && l.e in w.listeners && w.listeners[l.e] < |w.jobs|
      then Some(w.(jobs := SignalJob(w.jobs, w.listeners[l.e]), control := Signalling(left - {l.e})))
      else if l.DrainSignalled? && left == {} then Some(w.(control := Awaiting(w.listeners.Keys)))
      else None
    case Awaiting(left) =>
      if l.DrainJoin? && l.e in left && l.e in w.listeners && w.listeners[l.e] < |w.jobs|
         && HasExited(policy, w.jobs[w.listeners[l.e]])
      then Some(w.(control := Awaiting(left - {l.e})))
      else if l.DrainDone? && left == {} then Some(w.(control := Finished))
      else None
    case Finished => None
  }

  /** One atomic step, or None when it cannot happen in `w`. */
  function Apply(policy: ReconnectPolicy, w: World, l: Label): Option<World> {
    if !l.Act? then Advance(policy, w, l)
    else if l.id < |w.jobs| && CanTake(policy, w.jobs[l.id].history, w.jobs[l.id].signalled, l.m)
    then Some(TakeMoment(policy, w, l.id, l.m))
    else None
  }

  function Execute(policy: ReconnectPolicy, ls: seq<Label>): Option<World> {
    if ls == [] then Some(START)
    else
      var before := Execute(policy, ls[..|ls| - 1]);
      if before.Some? then Apply(policy, before.value, ls[|ls| - 1]) else None
  }

  lemma ExecuteSnoc(policy: ReconnectPolicy, ls: seq<Label>, l: Label)
    ensures Execute(policy, ls + [l]) ==
            if Execute(policy, ls).Some? then Apply(policy, Execute(policy, ls).value, l) else None
  {
    assert (ls + [l])[..|ls|] == ls;
  }

  /** The four statements of a stop, one by one. */
  lemma UnlinkApplies(policy: ReconnectPolicy, w: World, e: Endpoint)
    requires w.control.Removing? && e in w.control.left && e in w.listeners
    ensures Apply(policy, w, Unlink(e)) ==
            Some(w.(listeners := w.listeners - {e}, control := Unlinked(e, w.listeners[e], w.control.left - {e})))
  {
  }

  lemma SignalApplies(policy: ReconnectPolicy, w: World)
    requires w.control.Unlinked? && w.control.id < |w.jobs|
    ensures Apply(policy, w, Signal) ==
            Some(w.(jobs := SignalJob(w.jobs, w.control.id),
                    control := Joining(w.control.e, w.control.id, w.control.left)))
  {
  }

  lemma JoinApplies(policy: ReconnectPolicy, w: World)
    requires w.control.Joining? && w.control.id < |w.jobs| && HasExited(policy, w.jobs[w.control.id])
    ensures Apply(policy, w, Join) == Some(w.(control := Joined(w.control.e, w.control.id, w.control.left)))
  {
    hide HasExited;
  }

  lemma ForgetApplies(policy: ReconnectPolicy, w: World)
    requires w.control.Joined?
    ensures Apply(policy, w, Forget) ==
            Some(w.(statuses := w.statuses - {w.control.e}, control := Removing(w.control.left)))
  {
  }

  /** The three statements of a spawn, one by one. */
  lemma ConsiderApplies(policy: ReconnectPolicy, w: World, e: Endpoint)
    requires w.control.Arming? && e in w.control.left && e !in w.listeners
    ensures Apply(policy, w, Consider(e)) ==
            Some(w.(statuses := w.statuses[e := Listening], control := Announced(e, w.control.left - {e})))
  {
  }

  lemma SpawnApplies(policy: ReconnectPolicy, w: World)
    requires w.control.Announced?
    ensures Apply(policy, w, Spawn) ==
            Some(w.(jobs := w.jobs + [Job(w.control.e, [], false)],
                    control := Spawned(w.control.e, |w.jobs|, w.control.left)))
  {
  }

  lemma LinkApplies(policy: ReconnectPolicy, w: World)
    requires w.control.Spawned?
    ensures Apply(policy, w, Link) ==
            Some(w.(listeners := w.listeners[w.control.e := w.control.id], control := Arming(w.control.left)))
  {
  }

  /** The statements of a sweep around its two loops. */
  lemma ListedApplies(policy: ReconnectPolicy, w: World, target: set<Endpoint>)
    requires w.control.Idle?
    ensures Apply(policy, w, Listed(target)) ==
            Some(w.(target := target, control := Removing(w.listeners.Keys - target)))
  {
  }

  lemma RemovalDoneApplies(policy: ReconnectPolicy, w: World)
    requires w.control == Removing({})
    ensures Apply(policy, w, RemovalDone) == Some(w.(control := Arming(w.target)))
  {
  }

  lemma ArmingDoneApplies(policy: ReconnectPolicy, w: World)
    requires w.control == Arming({})
    ensures Apply(policy, w, ArmingDone) == Some(w.(control := Idle))
  {
  }

  // ----- The invariant of every interleaving -----

  /** The task that is running or was last run for each armed endpoint, wherever its handle is. */
  function Tracked(w: World): map<Endpoint, nat> {
    if w.control.Unlinked? || w.control.Joining? || w.control.Joined? || w.control.Spawned?
    then w.listeners[w.control.e := w.control.id] else w.listeners
  }

  ghost predicate JobsTracked(policy: ReconnectPolicy, w: World) {
    && (forall id | 0 <= id < |w.jobs| :: Possible(policy, w.jobs[id].history))
    && (forall id | 0 <= id < |w.jobs| && !HasExited(policy, w.jobs[id]) ::
          w.jobs[id].endpoint in Tracked(w) && Tracked(w)[w.jobs[id].endpoint] == id)
    && (forall e | e in Tracked(w) :: Tracked(w)[e] < |w.jobs| && w.jobs[Tracked(w)[e]].endpoint == e)
  }

  function StatusOfHistory(policy: ReconnectPolicy, h: seq<Moment>): Status {
    if HasGivenUp(policy, h) then Failed else Listening
  }

  ghost predicate StatusesAgree(policy: ReconnectPolicy, w: World) {
    && w.statuses.Keys == Tracked(w).Keys + (if w.control.Announced? then {w.control.e} else {})
    && (forall e | e in Tracked(w) && Tracked(w)[e] < |w.jobs| ::
          e in w.statuses && w.statuses[e] == StatusOfHistory(policy, w.jobs[Tracked(w)[e]].history))
    && (w.control.Announced? ==> w.statuses[w.control.e] == Listening)
  }

  ghost predicate ControlAgrees(policy: ReconnectPolicy, w: World) {
    var keys := w.listeners.Keys;
    match w.control
    case Idle => keys == w.target
    case Removing(left) => left <= keys && keys - left <= w.target && left !! w.target
    case Unlinked(e, id, left) => left <= keys && keys - left <= w.target && left !! w.target && e !in keys + w.target
    case Joining(e, id, left) => left <= keys && keys - left <= w.target && left !! w.target && e !in keys + w.target
    case Joined(e, id, left) =>
      && left <= keys && keys - left <= w.target && left !! w.target && e !in keys + w.target
      && id < |w.jobs| && HasExited(policy, w.jobs[id])
    case Arming(left) => keys + left == w.target
    case Announced(e, left) => keys + left + {e} == w.target && e !in keys
    case Spawned(e, id, left) => keys + left + {e} == w.target && e !in keys
    case Signalling(left) => left <= keys && keys == w.target
    case Awaiting(left) =>
      && left <= keys && keys == w.target
      && (forall e | e in keys - left && w.listeners[e] < |w.jobs| :: HasExited(policy, w.jobs[w.listeners[e]]))
    case Finished =>
      && keys == w.target
      && (forall e | e in keys && w.listeners[e] < |w.jobs| :: HasExited(policy, w.jobs[w.listeners[e]]))
  }

  /** A stop signal fires only for an endpoint that is being stopped or drained, and it has fired
      before the join. */
  ghost predicate SignalsAgree(w: World) {
    || w.control.Signalling? || w.control.Awaiting? || w.control.Finished?
    || (&& (forall e | e in w.listeners && w.listeners[e] < |w.jobs| :: !w.jobs[w.listeners[e]].signalled)
        && (w.control.Spawned? && w.control.id < |w.jobs| ==> !w.jobs[w.control.id].signalled)
        && ((w.control.Joining? || w.control.Joined?) && w.control.id < |w.jobs| ==> w.jobs[w.control.id].signalled))
  }

  ghost predicate Invariant(policy: ReconnectPolicy, w: World) {
    JobsTracked(policy, w) && StatusesAgree(policy, w) && ControlAgrees(policy, w) && SignalsAgree(w)
  }

  /** Only a live task takes a moment, and its longer history is possible. */
  lemma TakerIsLive(policy: ReconnectPolicy, job: Job, m: Moment)
    requires CanTake(policy, job.history, job.signalled, m)
    ensures !HasExited(policy, job) && Possible(policy, job.history + [m])
  {
    AfterSnoc(policy, job.history, m);
  }

  lemma ActKeepsJobsTracked(policy: ReconnectPolicy, w: World, id: nat, m: Moment)
    requires JobsTracked(policy, w) && Apply(policy, w, Act(id, m)).Some?
    ensures !HasExited(policy, w.jobs[id])
    ensures w.jobs[id].endpoint in Tracked(w) && Tracked(w)[w.jobs[id].endpoint] == id
    ensures JobsTracked(policy, TakeMoment(policy, w, id, m))
  {
    TakerIsLive(policy, w.jobs[id], m);
    hide Possible, HasExited, HasGivenUp, Apply;
    assert Tracked(TakeMoment(policy, w, id, m)) == Tracked(w);
  }

  lemma ActKeepsStatuses(policy: ReconnectPolicy, w: World, id: nat, m: Moment)
    requires JobsTracked(policy, w) && StatusesAgree(policy, w) && id < |w.jobs| && !HasExited(policy, w.jobs[id])
    requires JobsTracked(policy, TakeMoment(policy, w, id, m))
    requires w.control.Announced? ==> w.control.e !in w.listeners
    ensures StatusesAgree(policy, TakeMoment(policy, w, id, m))
  {
    hide After;
    var w', endpoint := TakeMoment(policy, w, id, m), w.jobs[id].endpoint;
    assert Tracked(w') == Tracked(w) && Tracked(w)[endpoint] == id;
    assert w'.statuses.Keys == w.statuses.Keys;
    forall e | e in Tracked(w')
      ensures e in w'.statuses && w'.statuses[e] == StatusOfHistory(policy, w'.jobs[Tracked(w')[e]].history)
    {
      if e == endpoint {
        assert !HasGivenUp(policy, w.jobs[id].history);
      } else {
        assert w.jobs[Tracked(w)[e]].endpoint == e;
      }
    }
  }

  lemma ActKeepsPosition(policy: ReconnectPolicy, w: World, id: nat, m: Moment)
    requires ControlAgrees(policy, w) && SignalsAgree(w) && id < |w.jobs| && !HasExited(policy, w.jobs[id])
    ensures ControlAgrees(policy, TakeMoment(policy, w, id, m))
    ensures SignalsAgree(TakeMoment(policy, w, id, m))
  {
    hide HasExited, HasGivenUp;
    var w' := TakeMoment(policy, w, id, m);
    assert forall k | 0 <= k < |w.jobs| :: w'.jobs[k].signalled == w.jobs[k].signalled;
    assert forall k | 0 <= k < |w.jobs| && HasExited(policy, w.jobs[k]) :: w'.jobs[k] == w.jobs[k];
  }

  lemma ActKeepsInvariant(policy: ReconnectPolicy, w: World, id: nat, m: Moment)
    requires Invariant(policy, w) && Apply(policy, w, Act(id, m)).Some?
    ensures Invariant(policy, TakeMoment(policy, w, id, m))
  {
    hide HasExited, TakeMoment, HasGivenUp, After;
    ActKeepsJobsTracked(policy, w, id, m);
    ActKeepsStatuses(policy, w, id, m);
    ActKeepsPosition(policy, w, id, m);
  }

  /** Steps that leave every task and every handle where it was keep the bookkeeping. */
  lemma SameTasks(policy: ReconnectPolicy, w: World, w': World)
    requires JobsTracked(policy, w) && StatusesAgree(policy, w)
    requires Tracked(w') == Tracked(w) && |w'.jobs| == |w.jobs|
    requires forall k | 0 <= k < |w.jobs| ::
               w'.jobs[k].endpoint == w.jobs[k].endpoint && w'.jobs[k].history == w.jobs[k].history
    ensures JobsTracked(policy, w')
    ensures w'.statuses == w.statuses && !w.control.Announced? && !w'.control.Announced? ==> StatusesAgree(policy, w')
  {
    hide After;
  }

  lemma UnlinkKeepsTasks(policy: ReconnectPolicy, w: World, l: Label)
    requires Invariant(policy, w) && w.control.Removing? && Advance(policy, w, l).Some?
    ensures JobsTracked(policy, Advance(policy, w, l).value) && StatusesAgree(policy, Advance(policy, w, l).value)
  {
    hide SignalsAgree, ControlAgrees, JobsTracked, StatusesAgree;
    hide After, HasExited, HasGivenUp, StatusOfHistory;
    var w' := Advance(policy, w, l).value;
    assert Tracked(w') == Tracked(w);
    SameTasks(policy, w, w');
  }

  lemma UnlinkKeepsPosition(policy: ReconnectPolicy, w: World, l: Label)
    requires Invariant(policy, w) && w.control.Removing? && Advance(policy, w, l).Some?
    ensures ControlAgrees(policy, Advance(policy, w, l).value) && SignalsAgree(Advance(policy, w, l).value)
  {
    hide StatusesAgree, JobsTracked, After, HasExited, HasGivenUp;
  }

  lemma UnlinkKeepsInvariant(policy: ReconnectPolicy, w: World, l: Label)
    requires Invariant(policy, w) && w.control.Removing? && Advance(policy, w, l).Some?
    ensures Invariant(policy, Advance(policy, w, l).value)
  {
    hide Advance, JobsTracked, StatusesAgree, ControlAgrees, SignalsAgree;
    UnlinkKeepsTasks(policy, w, l);
    UnlinkKeepsPosition(policy, w, l);
  }

  lemma SignalKeepsInvariant(policy: ReconnectPolicy, w: World, l: Label)
    requires Invariant(policy, w) && w.control.Unlinked? && Advance(policy, w, l).Some?
    ensures Invariant(policy, Advance(policy, w, l).value)
  {
    hide After, HasExited, HasGivenUp, StatusOfHistory;
    var w' := Advance(policy, w, l).value;
    assert Tracked(w') == Tracked(w);
    SameTasks(policy, w, w');
    assert w.jobs[w.control.id].endpoint == w.control.e by { assert w.control.e in Tracked(w); }
    forall e | e in w'.listeners ensures w'.listeners[e] != w.control.id {
      assert e in Tracked(w);
    }
  }

  lemma JoinKeepsInvariant(policy: ReconnectPolicy, w: World, l: Label)
    requires Invariant(policy, w) && w.control.Joining? && Advance(policy, w, l).Some?
    ensures Invariant(policy, Advance(policy, w, l).value)
  {
    hide After, HasExited, HasGivenUp, StatusOfHistory;
    var w' := Advance(policy, w, l).value;
    assert Tracked(w') == Tracked(w);
    SameTasks(policy, w, w');
  }

  lemma ForgetKeepsTasks(policy: ReconnectPolicy, w: World, l: Label)
    requires Invariant(policy, w) && w.control.Joined? && Advance(policy, w, l).Some?
    ensures JobsTracked(policy, Advance(policy, w, l).value) && StatusesAgree(policy, Advance(policy, w, l).value)
  {
    hide SignalsAgree;
    hide After, HasExited, HasGivenUp, StatusOfHistory;
    var w' := Advance(policy, w, l).value;
    assert Tracked(w') == Tracked(w) - {w.control.e};
  }

  lemma ForgetKeepsPosition(policy: ReconnectPolicy, w: World, l: Label)
    requires Invariant(policy, w) && w.control.Joined? && Advance(policy, w, l).Some?
    ensures ControlAgrees(policy, Advance(policy, w, l).value) && SignalsAgree(Advance(policy, w, l).value)
  {
    hide StatusesAgree;
    hide After, HasExited, HasGivenUp, StatusOfHistory;
    var w' := Advance(policy, w, l).value;
    assert Tracked(w') == Tracked(w) - {w.control.e};
  }

  lemma ForgetKeepsInvariant(policy: ReconnectPolicy, w: World, l: Label)
    requires Invariant(policy, w) && w.control.Joined? && Advance(policy, w, l).Some?
    ensures Invariant(policy, Advance(policy, w, l).value)
  {
    hide Advance, JobsTracked, StatusesAgree, ControlAgrees, SignalsAgree;
    ForgetKeepsTasks(policy, w, l);
    ForgetKeepsPosition(policy, w, l);
  }

  lemma AnnounceKeepsTasks(policy: ReconnectPolicy, w: World, l: Label)
    requires Invariant(policy, w) && w.control.Arming? && Advance(policy, w, l).Some?
    ensures JobsTracked(policy, Advance(policy, w, l).value) && StatusesAgree(policy, Advance(policy, w, l).value)
  {
    hide SignalsAgree;
    hide After, HasExited, HasGivenUp, StatusOfHistory;
    var w' := Advance(policy, w, l).value;
    assert Tracked(w') == Tracked(w);
    assert JobsTracked(policy, w');
  }

  lemma AnnounceKeepsPosition(policy: ReconnectPolicy, w: World, l: Label)
    requires Invariant(policy, w) && w.control.Arming? && Advance(policy, w, l).Some?
    ensures ControlAgrees(policy, Advance(policy, w, l).value) && SignalsAgree(Advance(policy, w, l).value)
  {
    hide StatusesAgree, After, HasExited, HasGivenUp, StatusOfHistory;
  }

  lemma AnnounceKeepsInvariant(policy: ReconnectPolicy, w: World, l: Label)
    requires Invariant(policy, w) && w.control.Arming? && Advance(policy, w, l).Some?
    ensures Invariant(policy, Advance(policy, w, l).value)
  {
    hide Advance, JobsTracked, StatusesAgree, ControlAgrees, SignalsAgree;
    AnnounceKeepsTasks(policy, w, l);
    AnnounceKeepsPosition(policy, w, l);
  }

  lemma SpawnKeepsTasks(policy: ReconnectPolicy, w: World, l: Label)
    requires Invariant(policy, w) && w.control.Announced? && Advance(policy, w, l).Some?
    ensures JobsTracked(policy, Advance(policy, w, l).value) && StatusesAgree(policy, Advance(policy, w, l).value)
  {
    hide SignalsAgree;
    var w' := Advance(policy, w, l).value;
    assert After(policy, []) == Some(STARTED) && StatusOfHistory(policy, []) == Listening;
    hide After, HasExited, HasGivenUp, StatusOfHistory;
    assert Tracked(w') == w.listeners[w.control.e := |w.jobs|];
    forall id | 0 <= id < |w'.jobs| && !HasExited(policy, w'.jobs[id])
      ensures w'.jobs[id].endpoint in Tracked(w') && Tracked(w')[w'.jobs[id].endpoint] == id
    {
      if id < |w.jobs| {
        assert w'.jobs[id] == w.jobs[id];
      }
    }
  }

  lemma SpawnKeepsPosition(policy: ReconnectPolicy, w: World, l: Label)
    requires Invariant(policy, w) && w.control.Announced? && Advance(policy, w, l).Some?
    ensures ControlAgrees(policy, Advance(policy, w, l).value) && SignalsAgree(Advance(policy, w, l).value)
  {
    hide StatusesAgree, After, HasExited, HasGivenUp, StatusOfHistory;
  }

  lemma SpawnKeepsInvariant(policy: ReconnectPolicy, w: World, l: Label)
    requires Invariant(policy, w) && w.control.Announced? && Advance(policy, w, l).Some?
    ensures Invariant(policy, Advance(policy, w, l).value)
  {
    hide Advance, JobsTracked, StatusesAgree, ControlAgrees, SignalsAgree;
    SpawnKeepsTasks(policy, w, l);
    SpawnKeepsPosition(policy, w, l);
  }

  lemma IdleKeepsInvariant(policy: ReconnectPolicy, w: World, l: Label)
    requires Invariant(policy, w) && w.control.Idle? && Advance(policy, w, l).Some?
    ensures Invariant(policy, Advance(policy, w, l).value)
  {
    hide After, HasExited, HasGivenUp, StatusOfHistory;
    var w' := Advance(policy, w, l).value;
    assert Tracked(w') == Tracked(w) == w.listeners;
  }

  lemma LinkKeepsTasks(policy: ReconnectPolicy, w: World, l: Label)
    requires Invariant(policy, w) && w.control.Spawned? && Advance(policy, w, l).Some?
    ensures JobsTracked(policy, Advance(policy, w, l).value) && StatusesAgree(policy, Advance(policy, w, l).value)
  {
    hide SignalsAgree, ControlAgrees, JobsTracked, StatusesAgree;
    hide After, HasExited, HasGivenUp, StatusOfHistory;
    var w' := Advance(policy, w, l).value;
    assert Tracked(w') == Tracked(w);
    SameTasks(policy, w, w');
  }

  lemma LinkKeepsPosition(policy: ReconnectPolicy, w: World, l: Label)
    requires Invariant(policy, w) && w.control.Spawned? && Advance(policy, w, l).Some?
    ensures ControlAgrees(policy, Advance(policy, w, l).value) && SignalsAgree(Advance(policy, w, l).value)
  {
    hide StatusesAgree, JobsTracked, After, HasExited, HasGivenUp;
  }

  lemma LinkKeepsInvariant(policy: ReconnectPolicy, w: World, l: Label)
    requires Invariant(policy, w) && w.control.Spawned? && Advance(policy, w, l).Some?
    ensures Invariant(policy, Advance(policy, w, l).value)
  {
    hide Advance, JobsTracked, StatusesAgree, ControlAgrees, SignalsAgree;
    LinkKeepsTasks(policy, w, l);
    LinkKeepsPosition(policy, w, l);
  }

  lemma DrainKeepsTasks(policy: ReconnectPolicy, w: World, l: Label)
    requires Invariant(policy, w) && (w.control.Signalling? || w.control.Awaiting?) && Advance(policy, w, l).Some?
    ensures JobsTracked(policy, Advance(policy, w, l).value) && StatusesAgree(policy, Advance(policy, w, l).value)
  {
    hide SignalsAgree, ControlAgrees, JobsTracked, StatusesAgree;
    hide After, HasExited, HasGivenUp, StatusOfHistory;
    var w' := Advance(policy, w, l).value;
    assert Tracked(w') == Tracked(w);
    SameTasks(policy, w, w');
  }

  lemma DrainKeepsPosition(policy: ReconnectPolicy, w: World, l: Label)
    requires Invariant(policy, w) && (w.control.Signalling? || w.control.Awaiting?) && Advance(policy, w, l).Some?
    ensures ControlAgrees(policy, Advance(policy, w, l).value) && SignalsAgree(Advance(policy, w, l).value)
  {
    hide StatusesAgree, JobsTracked, After, HasExited, HasGivenUp;
  }

  lemma DrainKeepsInvariant(policy: ReconnectPolicy, w: World, l: Label)
    requires Invariant(policy, w) && (w.control.Signalling? || w.control.Awaiting?) && Advance(policy, w, l).Some?
    ensures Invariant(policy, Advance(policy, w, l).value)
  {
    hide Advance, JobsTracked, StatusesAgree, ControlAgrees, SignalsAgree;
    DrainKeepsTasks(policy, w, l);
    DrainKeepsPosition(policy, w, l);
  }

  lemma AdvanceKeepsInvariant(policy: ReconnectPolicy, w: World, l: Label)
    requires Invariant(policy, w) && Advance(policy, w, l).Some?
    ensures Invariant(policy, Advance(policy, w, l).value)
  {
    assert !w.control.Finished?;
    hide *;
    match w.control {
      case Idle => IdleKeepsInvariant(policy, w, l);
      case Removing(_) => UnlinkKeepsInvariant(policy, w, l);
      case Unlinked(_, _, _) => SignalKeepsInvariant(policy, w, l);
      case Joining(_, _, _) => JoinKeepsInvariant(policy, w, l);
      case Joined(_, _, _) => ForgetKeepsInvariant(policy, w, l);
      case Arming(_) => AnnounceKeepsInvariant(policy, w, l);
      case Announced(_, _) => SpawnKeepsInvariant(policy, w, l);
      case Spawned(_, _, _) => LinkKeepsInvariant(policy, w, l);
      case Signalling(_) => DrainKeepsInvariant(policy, w, l);
      case Awaiting(_) => DrainKeepsInvariant(policy, w, l);
    }
  }

  lemma ApplyKeepsInvariant(policy: ReconnectPolicy, w: World, l: Label)
    requires Invariant(policy, w) && Apply(policy, w, l).Some?
    ensures Invariant(policy, Apply(policy, w, l).value)
  {
    hide Invariant, After, Advance;
    if l.Act? {
      ActKeepsInvariant(policy, w, l.id, l.m);
    } else {
      AdvanceKeepsInvariant(policy, w, l);
    }
  }

  lemma {:induction false} EveryRunKeepsInvariant(policy: ReconnectPolicy, ls: seq<Label>)
    requires Execute(policy, ls).Some?
    ensures Invariant(policy, Execute(policy, ls).value)
  {
    if ls != [] {
      EveryRunKeepsInvariant(policy, ls[..|ls| - 1]);
      ApplyKeepsInvariant(policy, Execute(policy, ls[..|ls| - 1]).value, ls[|ls| - 1]);
    }
  }

  // ----- What every interleaving guarantees -----

  /** The endpoints the last successful listing of a run returned. */
  function LastListed(ls: seq<Label>): set<Endpoint> {
    if ls == [] then {}
    else if ls[|ls| - 1].Listed? then ls[|ls| - 1].target
    else LastListed(ls[..|ls| - 1])
  }

  lemma StepTarget(policy: ReconnectPolicy, w: World, l: Label)
    requires Apply(policy, w, l).Some?
    ensures Apply(policy, w, l).value.target == if l.Listed? then l.target else w.target
  {
    hide After, CanTake, HasExited, HasGivenUp;
  }

  lemma {:induction false} TargetIsLastListed(policy: ReconnectPolicy, ls: seq<Label>)
    requires Execute(policy, ls).Some?
    ensures Execute(policy, ls).value.target == LastListed(ls)
  {
    hide Apply;
    if ls != [] {
      TargetIsLastListed(policy, ls[..|ls| - 1]);
      StepTarget(policy, Execute(policy, ls[..|ls| - 1]).value, ls[|ls| - 1]);
    }
  }

  /** At every sweep boundary of every interleaving the armed endpoints and the endpoints with a
      status are exactly the ones listed last; a failed listing changes nothing. */
  lemma BoundaryAgreesWithListing(policy: ReconnectPolicy, ls: seq<Label>)
    requires Execute(policy, ls).Some? && Execute(policy, ls).value.control.Idle?
    ensures var w := Execute(policy, ls).value;
            && w.listeners.Keys == LastListed(ls) && w.statuses.Keys == LastListed(ls)
            && Execute(policy, ls + [ListingFailed]) == Some(w)
  {
    EveryRunKeepsInvariant(policy, ls);
    TargetIsLastListed(policy, ls);
    ExecuteSnoc(policy, ls, ListingFailed);
  }

  /** No endpoint ever has two live tasks. */
  lemma OneLiveTaskPerEndpoint(policy: ReconnectPolicy, ls: seq<Label>, id: nat, id': nat)
    requires Execute(policy, ls).Some?
    requires var jobs := Execute(policy, ls).value.jobs;
             && id < |jobs| && id' < |jobs| && jobs[id].endpoint == jobs[id'].endpoint
             && !HasExited(policy, jobs[id]) && !HasExited(policy, jobs[id'])
    ensures id == id'
  {
    EveryRunKeepsInvariant(policy, ls);
  }

  /** A status entry exists only for an endpoint that is armed or being armed, wherever the
      supervisor is: a task that writes Failed late finds its own entry, never recreates one. */
  lemma NoGhostEntry(policy: ReconnectPolicy, ls: seq<Label>, id: nat, m: Moment)
    requires Execute(policy, ls).Some? && Execute(policy, ls + [Act(id, m)]).Some?
    ensures var w, w' := Execute(policy, ls).value, Execute(policy, ls + [Act(id, m)]).value;
            w'.statuses.Keys == w.statuses.Keys && w.jobs[id].endpoint in w.statuses
  {
    ExecuteSnoc(policy, ls, Act(id, m));
    EveryRunKeepsInvariant(policy, ls);
    ActKeepsJobsTracked(policy, Execute(policy, ls).value, id, m);
  }

  /** A task takes a stop only after its own signal fired. */
  ghost predicate StopsAreSignalled(w: World) {
    forall id | 0 <= id < |w.jobs| :: StopTaken in w.jobs[id].history ==> w.jobs[id].signalled
  }

  lemma StepKeepsStopsSignalled(policy: ReconnectPolicy, w: World, l: Label)
    requires StopsAreSignalled(w) && Apply(policy, w, l).Some?
    ensures StopsAreSignalled(Apply(policy, w, l).value)
  {
    hide After, HasExited, HasGivenUp;
  }

  lemma {:induction false} EveryStopIsSignalled(policy: ReconnectPolicy, ls: seq<Label>)
    requires Execute(policy, ls).Some?
    ensures StopsAreSignalled(Execute(policy, ls).value)
  {
    if ls != [] {
      EveryStopIsSignalled(policy, ls[..|ls| - 1]);
      StepKeepsStopsSignalled(policy, Execute(policy, ls[..|ls| - 1]).value, ls[|ls| - 1]);
    }
  }

  /** Until the drain, whatever the interleaving, the status of an armed endpoint tells whether its task is
      live: Listening exactly while it is, Failed exactly when it gave up; no signal has fired for it, and it
      has taken no stop. */
  lemma ListeningMeansLive(policy: ReconnectPolicy, ls: seq<Label>, e: Endpoint)
    requires Execute(policy, ls).Some? && e in Execute(policy, ls).value.listeners
    requires var c := Execute(policy, ls).value.control; !c.Signalling? && !c.Awaiting? && !c.Finished?
    ensures var w := Execute(policy, ls).value;
            && w.listeners[e] < |w.jobs| && e in w.statuses
            && var job := w.jobs[w.listeners[e]];
               && job.endpoint == e && !job.signalled && StopTaken !in job.history
               && (w.statuses[e] == Listening <==> !HasExited(policy, job))
               && (w.statuses[e] == Failed <==> HasGivenUp(policy, job.history))
  {
    hide Execute, After;
    EveryRunKeepsInvariant(policy, ls);
    EveryStopIsSignalled(policy, ls);
    var w := Execute(policy, ls).value;
    assert Tracked(w)[e] == w.listeners[e];
    UnstoppedTaskGivesUp(policy, w.jobs[Tracked(w)[e]].history);
  }

  /** When the supervisor has returned, no task is live. */
  lemma NoTaskOutlivesTheSupervisor(policy: ReconnectPolicy, ls: seq<Label>)
    requires Execute(policy, ls).Some? && Execute(policy, ls).value.control.Finished?
    ensures forall id | 0 <= id < |Execute(policy, ls).value.jobs| ::
              HasExited(policy, Execute(policy, ls).value.jobs[id])
  {
    EveryRunKeepsInvariant(policy, ls);
  }

  /** The lemma the join protects: when a status is erased its task has exited. */
  lemma ErasedAfterJoin(policy: ReconnectPolicy, ls: seq<Label>)
    requires Execute(policy, ls).Some? && Execute(policy, ls + [Forget]).Some?
    ensures var w, w' := Execute(policy, ls).value, Execute(policy, ls + [Forget]).value;
            && w.control.Joined? && w'.statuses.Keys == w.statuses.Keys - {w.control.e}
            && (forall id | 0 <= id < |w'.jobs| && w'.jobs[id].endpoint == w.control.e ::
                  HasExited(policy, w'.jobs[id]))
  {
    ExecuteSnoc(policy, ls, Forget);
    EveryRunKeepsInvariant(policy, ls);
    EveryRunKeepsInvariant(policy, ls + [Forget]);
  }
}
