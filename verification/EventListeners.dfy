/** The supervisor object: the statements of the sweep, the stop, the spawn and the drain, in order,
    on mutable maps. Every statement is one step of the interleaving machine: `trace` is the run
    so far, so what is proved about all runs holds at every statement of every method. */
module EventListeners {
  import opened Wrappers

  import opened ReconnectBackoff
  import opened EventListener
  import opened ListenerSupervisor

  /** A turn the runtime gives to one task while the supervisor awaits. */
  datatype Turn = Turn(id: nat, m: Moment)

  /** One tick of the sweep ticker: what the tasks do before it, what the lister answers (None for
      a failed listing), and what the tasks do while the sweep awaits. */
  datatype Tick = Tick(before: seq<Turn>, listing: Option<seq<Endpoint>>, during: seq<Turn>)

  /** The endpoints of the last tick whose listing succeeded, or those from before the ticks. */
  function LastEnrolled(before: set<Endpoint>, ticks: seq<Tick>): set<Endpoint> {
    if ticks == [] then before
    else
      match ticks[|ticks| - 1].listing
      case Some(enrolled) => set e | e in enrolled
      case None => LastEnrolled(before, ticks[..|ticks| - 1])
  }

  class Supervisor {
    const policy: ReconnectPolicy
    var listeners: map<Endpoint, nat>
    var statuses: map<Endpoint, Status>
    var jobs: seq<Job>
    ghost var target: set<Endpoint>
    ghost var trace: seq<Label>

    /** The object is where the run `trace` of the interleaving machine is, at `control`. */
    ghost predicate At(control: Control)
      reads this
    {
      Execute(policy, trace) == Some(World(listeners, statuses, jobs, target, control))
    }

    constructor (policy: ReconnectPolicy)
      ensures this.policy == policy && At(Idle) && listeners == map[] && statuses == map[] && jobs == []
    {
      this.policy := policy;
      listeners, statuses, jobs, target, trace := map[], map[], [], {}, [];
    }

    /** Lets one task see one moment, when that moment is possible. */
    method TakeTurn(turn: Turn, ghost control: Control)
      requires At(control)
      modifies `jobs, `statuses, `trace
      ensures At(control) && |jobs| == |old(jobs)|
    {
      hide Execute, After, Advance;
      if turn.id < |jobs| {
        var job := jobs[turn.id];
        if CanTake(policy, job.history, job.signalled, turn.m) {
          ExecuteSnoc(policy, trace, Act(turn.id, turn.m));
          trace := trace + [Act(turn.id, turn.m)];
          var history := job.history + [turn.m];
          jobs := jobs[turn.id := job.(history := history)];
          if HasGivenUp(policy, history) {
            statuses := statuses[job.endpoint := Failed];
          }
        }
      }
    }

    /** Waits for a task to exit while the runtime hands out turns. */
    method AwaitExit(id: nat, turns: seq<Turn>, ghost control: Control) returns (exited: bool, rest: seq<Turn>)
      requires At(control) && id < |jobs|
      modifies `jobs, `statuses, `trace
      ensures At(control) && |jobs| == |old(jobs)| && (exited ==> HasExited(policy, jobs[id]))
    {
      rest := turns;
      while !HasExited(policy, jobs[id])
        invariant At(control) && |jobs| == |old(jobs)|
        decreases |rest|
      {
        if rest == [] {
          return false, rest;
        }
        TakeTurn(rest[0], control);
        rest := rest[1..];
      }
      return true, rest;
    }

    /** Stops one endpoint's listener and forgets the endpoint: unlink, signal, join, and only then
        erase the status. When the task never exits, the supervisor stays at the join. An endpoint
        without a listener is left alone. */
    method StopListener(e: Endpoint, turns: seq<Turn>, ghost left: set<Endpoint>)
      returns (joined: bool, rest: seq<Turn>, ghost control: Control)
      requires At(Removing(left)) && (e in listeners ==> e in left && listeners[e] < |jobs|)
      modifies `listeners, `statuses, `jobs, `trace
      ensures At(control) && listeners == old(listeners) - {e} && |jobs| == |old(jobs)|
      ensures e !in old(listeners) ==>
                joined && control == Removing(left) && rest == turns
                && statuses == old(statuses) && jobs == old(jobs) && trace == old(trace)
      ensures e in old(listeners) ==>
                if joined then control == Removing(left - {e}) else control.Joining? && control.e == e
    {
      hide Execute, HasExited, Apply;
      if e !in listeners {
        assert listeners - {e} == listeners;
        return true, turns, Removing(left);
      }
      var id := listeners[e];
      ExecuteSnoc(policy, trace, Unlink(e));
      UnlinkApplies(policy, World(listeners, statuses, jobs, target, Removing(left)), e);
      listeners := listeners - {e};
      trace := trace + [Unlink(e)];

      ExecuteSnoc(policy, trace, Signal);
      SignalApplies(policy, World(listeners, statuses, jobs, target, Unlinked(e, id, left - {e})));
      jobs := jobs[id := jobs[id].(signalled := true)];
      trace := trace + [Signal];

      control := Joining(e, id, left - {e});
      joined, rest := AwaitExit(id, turns, control);
      if !joined {
        return;
      }
      ExecuteSnoc(policy, trace, Join);
      JoinApplies(policy, World(listeners, statuses, jobs, target, control));
      trace := trace + [Join];

      ExecuteSnoc(policy, trace, Forget);
      ForgetApplies(policy, World(listeners, statuses, jobs, target, Joined(e, id, left - {e})));
      statuses := statuses - {e};
      trace := trace + [Forget];
      control := Removing(left - {e});
    }

    /** Spawns one endpoint's listener and records it as Listening: status, task, handle. */
    method SpawnListener(e: Endpoint, ghost left: set<Endpoint>)
      requires At(Arming(left)) && e in left && e !in listeners
      modifies `listeners, `statuses, `jobs, `trace
      ensures At(Arming(left - {e}))
      ensures listeners == old(listeners)[e := |old(jobs)|] && statuses == old(statuses)[e := Listening]
      ensures jobs == old(jobs) + [Job(e, [], false)]
    {
      hide Execute, Apply;
      ExecuteSnoc(policy, trace, Consider(e));
      ConsiderApplies(policy, World(listeners, statuses, jobs, target, Arming(left)), e);
      statuses := statuses[e := Listening];
      trace := trace + [Consider(e)];

      ExecuteSnoc(policy, trace, Spawn);
      SpawnApplies(policy, World(listeners, statuses, jobs, target, Announced(e, left - {e})));
      var id := |jobs|;
      jobs := jobs + [Job(e, [], false)];
      trace := trace + [Spawn];

      ExecuteSnoc(policy, trace, Link);
      LinkApplies(policy, World(listeners, statuses, jobs, target, Spawned(e, id, left - {e})));
      listeners := listeners[e := id];
      trace := trace + [Link];
    }

    /** What the invariant says at a sweep boundary and inside the loops of a sweep. */
    lemma Bookkeeping(control: Control)
      requires At(control)
      ensures Invariant(policy, World(listeners, statuses, jobs, target, control))
    {
      EveryRunKeepsInvariant(policy, trace);
    }

    /** Every listener whose endpoint is not listed is stopped. */
    method RemoveUnlisted(removed: set<Endpoint>, turns: seq<Turn>)
      returns (done: bool, rest: seq<Turn>, ghost control: Control)
      requires At(Removing(removed)) && removed <= listeners.Keys
      modifies `listeners, `statuses, `jobs, `trace
      ensures At(control) && (done ==> control == Removing({}) && listeners == old(listeners) - removed)
      ensures !done ==> control.Joining?
    {
      hide Execute, HasExited;
      var left := removed;
      rest, control := turns, Removing(removed);
      assert listeners == old(listeners) - (removed - left);
      while left != {}
        invariant control == Removing(left) && At(control) && left <= removed && left <= listeners.Keys
        invariant listeners == old(listeners) - (removed - left)
      {
        var e :| e in left;
        assert listeners[e] < |jobs| by { Bookkeeping(control); }
        var joined;
        joined, rest, control := StopListener(e, rest, left);
        if !joined {
          return false, rest, control;
        }
        left := left - {e};
        assert listeners == old(listeners) - (removed - left);
      }
      done := true;
      assert removed - left == removed;
    }

    /** Every listed endpoint that has no listener gets one; a listener that gave up counts. */
    method ArmListed(listed: set<Endpoint>)
      requires At(Arming(listed)) && listeners.Keys <= listed
      modifies `listeners, `statuses, `jobs, `trace
      ensures At(Arming({})) && listeners.Keys == listed
      ensures forall e | e in old(listeners) :: listeners[e] == old(listeners)[e]
      ensures forall e | e in listed && e !in old(listeners) ::
                listeners[e] >= |old(jobs)| && e in statuses && statuses[e] == Listening
    {
      hide Execute, HasExited;
      var left := listed;
      while left != {}
        invariant At(Arming(left)) && left <= listed && old(listeners.Keys) <= listeners.Keys <= listed
        invariant listed <= listeners.Keys + left
        invariant |jobs| >= |old(jobs)|
        invariant forall e | e in old(listeners) :: listeners[e] == old(listeners)[e]
        invariant forall e | e in listeners && e !in old(listeners) ::
                    listeners[e] >= |old(jobs)| && e in statuses && statuses[e] == Listening
      {
        var e :| e in left;
        if e in listeners {
          ExecuteSnoc(policy, trace, Consider(e));
          trace := trace + [Consider(e)];
        } else {
          SpawnListener(e, left);
        }
        left := left - {e};
      }
    }

    /** One sweep: stop what is no longer listed, start what is newly listed, leave the rest alone.
        An endpoint listed twice is one endpoint. */
    method Reconcile(enrolled: seq<Endpoint>, turns: seq<Turn>) returns (done: bool, ghost control: Control)
      requires At(Idle)
      modifies this
      ensures At(control)
      ensures if done then control == Idle else control.Joining?
      ensures done ==> listeners.Keys == statuses.Keys == (set e | e in enrolled)
      ensures done ==> forall e | e in old(listeners) && e in enrolled :: listeners[e] == old(listeners)[e]
    {
      hide Execute, Apply, JobsTracked, SignalsAgree;
      var listed := set e | e in enrolled;
      ExecuteSnoc(policy, trace, Listed(listed));
      ListedApplies(policy, World(listeners, statuses, jobs, target, Idle), listed);
      target := listed;
      trace := trace + [Listed(listed)];
      var rest;
      done, rest, control := RemoveUnlisted(listeners.Keys - listed, turns);
      if !done {
        return;
      }
      ExecuteSnoc(policy, trace, RemovalDone);
      RemovalDoneApplies(policy, World(listeners, statuses, jobs, target, Removing({})));
      trace := trace + [RemovalDone];
      Bookkeeping(Arming(listed));
      ArmListed(listed);
      ExecuteSnoc(policy, trace, ArmingDone);
      ArmingDoneApplies(policy, World(listeners, statuses, jobs, target, Arming({})));
      trace := trace + [ArmingDone];
      Bookkeeping(Idle);
      control := Idle;
    }

    /** Fires every per-endpoint signal, so that all the listeners stop in parallel. */
    method SignalAll()
      requires At(Signalling(listeners.Keys))
      modifies `jobs, `trace
      ensures At(Awaiting(listeners.Keys)) && |jobs| == |old(jobs)|
    {
      hide Execute, HasExited;
      var left := listeners.Keys;
      while left != {}
        invariant At(Signalling(left)) && left <= listeners.Keys && |jobs| == |old(jobs)|
      {
        var e :| e in left;
        assert listeners[e] < |jobs| by { Bookkeeping(Signalling(left)); }
        ExecuteSnoc(policy, trace, DrainSignal(e));
        jobs := jobs[listeners[e] := jobs[listeners[e]].(signalled := true)];
        trace := trace + [DrainSignal(e)];
        left := left - {e};
      }
      ExecuteSnoc(policy, trace, DrainSignalled);
      trace := trace + [DrainSignalled];
    }

    /** Stops every listener, joins every task, and reports the endpoints that gave up. */
    method DrainAll(turns: seq<Turn>) returns (done: bool, failed: set<Endpoint>, ghost control: Control)
      requires At(Signalling(listeners.Keys))
      modifies `jobs, `statuses, `trace
      ensures At(control)
      ensures done ==> control == Finished && (forall id | 0 <= id < |jobs| :: HasExited(policy, jobs[id]))
      ensures done ==> forall e :: e in failed <==> e in statuses && statuses[e] == Failed
      ensures !done ==> control.Awaiting?
    {
      hide Execute, HasExited, After;
      failed := {};
      SignalAll();
      var left, rest := listeners.Keys, turns;
      control := Awaiting(left);
      while left != {}
        invariant control == Awaiting(left) && At(control) && left <= listeners.Keys
      {
        var e :| e in left;
        assert listeners[e] < |jobs| by { Bookkeeping(control); }
        var exited;
        exited, rest := AwaitExit(listeners[e], rest, control);
        if !exited {
          return false, {}, control;
        }
        ExecuteSnoc(policy, trace, DrainJoin(e));
        trace := trace + [DrainJoin(e)];
        left := left - {e};
        control := Awaiting(left);
      }
      ExecuteSnoc(policy, trace, DrainDone);
      trace := trace + [DrainDone];
      control := Finished;
      Bookkeeping(control);
      done, failed := true, set e | e in statuses && statuses[e] == Failed;
    }

    /** The turns the tasks take while the supervisor waits for its next tick. */
    method TakeTurns(turns: seq<Turn>, ghost control: Control)
      requires At(control)
      modifies `jobs, `statuses, `trace
      ensures At(control)
    {
      for i := 0 to |turns|
        invariant At(control)
      {
        TakeTurn(turns[i], control);
      }
    }

    /** The supervisor loop: sweep on every tick until the stop, then drain. A failed listing skips
        the sweep. When the loop returns, no task is live; it stays behind only at a join. */
    method Run(ticks: seq<Tick>, drainTurns: seq<Turn>)
      returns (returned: bool, failed: set<Endpoint>, ghost control: Control)
      requires At(Idle)
      modifies this
      ensures At(control)
      ensures returned ==> control == Finished && (forall id | 0 <= id < |jobs| :: HasExited(policy, jobs[id]))
      ensures returned ==> listeners.Keys == statuses.Keys == LastListed(trace)
      ensures returned ==> forall e :: e in failed <==> e in statuses && statuses[e] == Failed
      ensures returned ==> listeners.Keys == LastEnrolled(old(listeners.Keys), ticks)
      ensures !returned ==> control.Joining? || control.Awaiting?
    {
      hide Execute, HasExited;
      for i := 0 to |ticks|
        invariant At(Idle) && listeners.Keys == LastEnrolled(old(listeners.Keys), ticks[..i])
      {
        assert ticks[..i + 1][..i] == ticks[..i];
        TakeTurns(ticks[i].before, Idle);
        match ticks[i].listing {
          case None =>
            ExecuteSnoc(policy, trace, ListingFailed);
            trace := trace + [ListingFailed];
          case Some(enrolled) =>
            var done;
            done, control := Reconcile(enrolled, ticks[i].during);
            if !done {
              return false, {}, control;
            }
        }
      }
      assert ticks[..|ticks|] == ticks;
      ExecuteSnoc(policy, trace, StopSeen);
      trace := trace + [StopSeen];
      returned, failed, control := DrainAll(drainTurns);
      Bookkeeping(control);
      TargetIsLastListed(policy, trace);
    }
  }
}
