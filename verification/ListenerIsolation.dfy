/** One endpoint's view of the supervisor: whatever the interleaving, what happens to an endpoint
    is a run of that endpoint's own small machine, fed only with its own starts, stops and task
    moments. No other endpoint appears in it. */
module ListenerIsolation {
  import opened Wrappers

  import opened ReconnectBackoff
  import opened EventListener
  import opened ListenerSupervisor

  datatype Cell =
    | Absent
    | Starting                                          // the status is written, nothing runs yet
    | Armed(history: seq<Moment>, signalled: bool)

  datatype Move = Announce | Begin | Stop | Take(m: Moment) | Erase

  function CellApply(policy: ReconnectPolicy, c: Cell, mv: Move): Option<Cell> {
    match mv
    case Announce => if c.Absent? then Some(Starting) else None
    case Begin => if c.Starting? then Some(Armed([], false)) else None
    case Stop => if c.Armed? then Some(c.(signalled := true)) else None
    case Take(m) =>
      if c.Armed? && CanTake(policy, c.history, c.signalled, m) then Some(c.(history := c.history + [m])) else None
    case Erase =>
      if c.Armed? && c.signalled && After(policy, c.history).Some? && After(policy, c.history).value.phase.Exited?
      then Some(Absent) else None
  }

  function CellRun(policy: ReconnectPolicy, mvs: seq<Move>): Option<Cell> {
    if mvs == [] then Some(Absent)
    else
      var before := CellRun(policy, mvs[..|mvs| - 1]);
      if before.Some? then CellApply(policy, before.value, mvs[|mvs| - 1]) else None
  }

  /** What the status map says about an endpoint in this state. */
  function CellStatus(policy: ReconnectPolicy, c: Cell): Option<Status> {
    match c
    case Absent => None
    case Starting => Some(Listening)
    case Armed(h, _) => Some(StatusOfHistory(policy, h))
  }

  /** The part of the world that belongs to one endpoint. */
  function Project(w: World, e: Endpoint): Cell {
    if w.control.Announced? && w.control.e == e then Starting
    else if e in Tracked(w) && Tracked(w)[e] < |w.jobs|
    then Armed(w.jobs[Tracked(w)[e]].history, w.jobs[Tracked(w)[e]].signalled)
    else Absent
  }

  /** What a step of the world is for one endpoint: one of its own moves, or nothing. */
  function MoveOf(w: World, l: Label, e: Endpoint): Option<Move> {
    match l
    case Act(id, m) => if id < |w.jobs| && w.jobs[id].endpoint == e then Some(Take(m)) else None
    case Consider(e') => if e' == e && e !in w.listeners then Some(Announce) else None
    case Spawn => if w.control.Announced? && w.control.e == e then Some(Begin) else None
    case Signal => if w.control.Unlinked? && w.control.e == e then Some(Stop) else None
    case DrainSignal(e') => if e' == e then Some(Stop) else None
    case Forget => if w.control.Joined? && w.control.e == e then Some(Erase) else None
    case _ => None
  }

  function MovesOf(policy: ReconnectPolicy, ls: seq<Label>, e: Endpoint): seq<Move> {
    if ls == [] then []
    else
      var before := Execute(policy, ls[..|ls| - 1]);
      var mv := if before.Some? then MoveOf(before.value, ls[|ls| - 1], e) else None;
      MovesOf(policy, ls[..|ls| - 1], e) + (if mv.Some? then [mv.value] else [])
  }

  lemma StatusIsOwnStatus(policy: ReconnectPolicy, w: World, e: Endpoint)
    requires Invariant(policy, w)
    ensures (if e in w.statuses then Some(w.statuses[e]) else None) == CellStatus(policy, Project(w, e))
  {
    hide After, HasExited, HasGivenUp, StatusOfHistory;
  }

  lemma ActProjects(policy: ReconnectPolicy, w: World, id: nat, m: Moment, e: Endpoint)
    requires JobsTracked(policy, w) && id < |w.jobs| && CanTake(policy, w.jobs[id].history, w.jobs[id].signalled, m)
    requires w.control.Announced? ==> w.control.e !in w.listeners
    ensures var w' := TakeMoment(policy, w, id, m);
            if w.jobs[id].endpoint == e then CellApply(policy, Project(w, e), Take(m)) == Some(Project(w', e))
            else Project(w', e) == Project(w, e)
  {
    hide After, CanTake, HasGivenUp, HasExited;
    ActKeepsJobsTracked(policy, w, id, m);
    assert e in Tracked(w) ==> Tracked(w)[e] < |w.jobs| && w.jobs[Tracked(w)[e]].endpoint == e;
    hide JobsTracked;
    var w' := TakeMoment(policy, w, id, m);
    assert Tracked(w') == Tracked(w);
    if w.jobs[id].endpoint == e {
      assert Project(w, e) == Armed(w.jobs[id].history, w.jobs[id].signalled);
    } else {
      UntouchedCell(w, w', e);
    }
  }

  /** A step that leaves the jobs and the handles of an endpoint alone leaves its cell alone. */
  lemma UntouchedCell(w: World, w': World, e: Endpoint)
    requires (e in Tracked(w')) == (e in Tracked(w))
    requires e in Tracked(w) ==> Tracked(w')[e] == Tracked(w)[e]
    requires e in Tracked(w) && Tracked(w)[e] < |w.jobs| ==>
               Tracked(w)[e] < |w'.jobs| && w'.jobs[Tracked(w)[e]] == w.jobs[Tracked(w)[e]]
    requires |w.jobs| == |w'.jobs|
    requires (w.control.Announced? && w.control.e == e) == (w'.control.Announced? && w'.control.e == e)
    ensures Project(w', e) == Project(w, e)
  {
  }

  lemma SignalProjects(policy: ReconnectPolicy, w: World, l: Label, e: Endpoint)
    requires JobsTracked(policy, w) && Advance(policy, w, l).Some? && (l.Signal? || l.DrainSignal?)
    ensures var w', mv := Advance(policy, w, l).value, MoveOf(w, l, e);
            if mv.Some? then CellApply(policy, Project(w, e), mv.value) == Some(Project(w', e))
            else Project(w', e) == Project(w, e)
  {
    hide After, HasExited;
    var w' := Advance(policy, w, l).value;
    assert Tracked(w') == Tracked(w);
    var id := if l.Signal? then w.control.id else w.listeners[l.e];
    if MoveOf(w, l, e).Some? {
      assert Tracked(w)[e] == id;
    } else if e in Tracked(w) {
      assert w.jobs[id].endpoint != e by { assert (if l.Signal? then w.control.e else l.e) in Tracked(w); }
      assert Tracked(w)[e] != id;
      UntouchedCell(w, w', e);
    }
  }

  lemma ErasureProjects(policy: ReconnectPolicy, w: World, l: Label, e: Endpoint)
    requires Invariant(policy, w) && w.control.Joined? && Advance(policy, w, l).Some?
    ensures var w', mv := Advance(policy, w, l).value, MoveOf(w, l, e);
            if mv.Some? then CellApply(policy, Project(w, e), mv.value) == Some(Project(w', e))
            else Project(w', e) == Project(w, e)
  {
    hide After, HasGivenUp, StatusOfHistory;
    assert Tracked(Advance(policy, w, l).value) == Tracked(w) - {w.control.e};
  }

  lemma BeginProjects(policy: ReconnectPolicy, w: World, l: Label, e: Endpoint)
    requires Invariant(policy, w) && w.control.Announced? && Advance(policy, w, l).Some?
    ensures var w', mv := Advance(policy, w, l).value, MoveOf(w, l, e);
            if mv.Some? then CellApply(policy, Project(w, e), mv.value) == Some(Project(w', e))
            else Project(w', e) == Project(w, e)
  {
    hide After, HasGivenUp, StatusOfHistory;
    assert Tracked(Advance(policy, w, l).value) == w.listeners[w.control.e := |w.jobs|];
  }

  lemma AnnouncementProjects(policy: ReconnectPolicy, w: World, l: Label, e: Endpoint)
    requires Invariant(policy, w) && w.control.Arming? && Advance(policy, w, l).Some?
    ensures var w', mv := Advance(policy, w, l).value, MoveOf(w, l, e);
            if mv.Some? then CellApply(policy, Project(w, e), mv.value) == Some(Project(w', e))
            else Project(w', e) == Project(w, e)
  {
    hide After, HasGivenUp, StatusOfHistory;
    assert Tracked(Advance(policy, w, l).value) == Tracked(w);
  }

  /** The steps that are nobody's move. */
  lemma OtherStepsProject(policy: ReconnectPolicy, w: World, l: Label, e: Endpoint)
    requires !l.Act? && !l.Signal? && !l.DrainSignal?
             && !(w.control.Joined? || w.control.Announced? || w.control.Arming?) && Advance(policy, w, l).Some?
    ensures var w', mv := Advance(policy, w, l).value, MoveOf(w, l, e);
            if mv.Some? then CellApply(policy, Project(w, e), mv.value) == Some(Project(w', e))
            else Project(w', e) == Project(w, e)
  {
    hide After, HasGivenUp, HasExited;
    assert Tracked(Advance(policy, w, l).value) == Tracked(w);
    UntouchedCell(w, Advance(policy, w, l).value, e);
  }

  lemma AdvanceProjects(policy: ReconnectPolicy, w: World, l: Label, e: Endpoint)
    requires Invariant(policy, w) && !l.Act? && Advance(policy, w, l).Some?
    ensures var w', mv := Advance(policy, w, l).value, MoveOf(w, l, e);
            if mv.Some? then CellApply(policy, Project(w, e), mv.value) == Some(Project(w', e))
            else Project(w', e) == Project(w, e)
  {
    hide After, HasGivenUp, StatusOfHistory;
    hide JobsTracked, StatusesAgree, ControlAgrees, SignalsAgree, Advance, CellApply, Project, MoveOf;
    if l.Signal? || l.DrainSignal? {
      SignalProjects(policy, w, l, e);
    } else {
      match w.control
      case Joined(_, _, _) => ErasureProjects(policy, w, l, e);
      case Announced(_, _) => BeginProjects(policy, w, l, e);
      case Arming(_) => AnnouncementProjects(policy, w, l, e);
      case _ => OtherStepsProject(policy, w, l, e);
    }
  }

  lemma AnnouncedIsUnlinked(policy: ReconnectPolicy, w: World)
    requires ControlAgrees(policy, w)
    ensures w.control.Announced? ==> w.control.e !in w.listeners
  {
  }

  /** Every step of every interleaving is, for each endpoint, one of its own moves or nothing. */
  lemma ApplyProjects(policy: ReconnectPolicy, w: World, l: Label, e: Endpoint)
    requires Invariant(policy, w) && Apply(policy, w, l).Some?
    ensures var w', mv := Apply(policy, w, l).value, MoveOf(w, l, e);
            if mv.Some? then CellApply(policy, Project(w, e), mv.value) == Some(Project(w', e))
            else Project(w', e) == Project(w, e)
  {
    hide JobsTracked, StatusesAgree, ControlAgrees, SignalsAgree, Advance, CanTake, Project, CellApply, TakeMoment;
    if l.Act? {
      AnnouncedIsUnlinked(policy, w);
      ActProjects(policy, w, l.id, l.m, e);
    } else {
      AdvanceProjects(policy, w, l, e);
    }
  }

  lemma CellRunSnoc(policy: ReconnectPolicy, mvs: seq<Move>, mv: Move)
    ensures CellRun(policy, mvs + [mv]) ==
            if CellRun(policy, mvs).Some? then CellApply(policy, CellRun(policy, mvs).value, mv) else None
  {
    assert (mvs + [mv])[..|mvs|] == mvs;
  }

  lemma LastStep(policy: ReconnectPolicy, ls: seq<Label>, e: Endpoint)
    requires ls != [] && Execute(policy, ls).Some?
    ensures var before, l := Execute(policy, ls[..|ls| - 1]), ls[|ls| - 1];
            && before.Some? && Apply(policy, before.value, l) == Execute(policy, ls)
            && MovesOf(policy, ls, e) ==
               MovesOf(policy, ls[..|ls| - 1], e) +
               (if MoveOf(before.value, l, e).Some? then [MoveOf(before.value, l, e).value] else [])
  {
  }

  /** Projecting any run of the supervisor and all its tasks onto one endpoint is a run of that
      endpoint's machine alone, and the endpoint's status is a function of it. */
  lemma {:induction false} RunsProject(policy: ReconnectPolicy, ls: seq<Label>, e: Endpoint)
    requires Execute(policy, ls).Some?
    ensures var w := Execute(policy, ls).value;
            && CellRun(policy, MovesOf(policy, ls, e)) == Some(Project(w, e))
            && (if e in w.statuses then Some(w.statuses[e]) else None) == CellStatus(policy, Project(w, e))
  {
    if ls == [] {
      assert Project(START, e) == Absent;
    } else {
      hide Execute, MovesOf, CellRun, Apply, CellApply, Project, MoveOf, Invariant, CellStatus;
      EveryRunKeepsInvariant(policy, ls);
      StatusIsOwnStatus(policy, Execute(policy, ls).value, e);
      var before, l := ls[..|ls| - 1], ls[|ls| - 1];
      LastStep(policy, ls, e);
      RunsProject(policy, before, e);
      EveryRunKeepsInvariant(policy, before);
      ApplyProjects(policy, Execute(policy, before).value, l, e);
      var mv := MoveOf(Execute(policy, before).value, l, e);
      if mv.Some? {
        CellRunSnoc(policy, MovesOf(policy, before, e), mv.value);
      } else {
        assert MovesOf(policy, ls, e) == MovesOf(policy, before, e);
      }
    }
  }

  /** Two runs, with whatever other endpoints and interleavings, in which one endpoint sees the
      same moves leave that endpoint with the same status and the same task history. */
  lemma EndpointsDoNotInterfere(policy: ReconnectPolicy, ls: seq<Label>, ls': seq<Label>, e: Endpoint)
    requires Execute(policy, ls).Some? && Execute(policy, ls').Some?
    requires MovesOf(policy, ls, e) == MovesOf(policy, ls', e)
    ensures var w, w' := Execute(policy, ls).value, Execute(policy, ls').value;
            && Project(w, e) == Project(w', e)
            && (e in w.statuses <==> e in w'.statuses)
            && (e in w.statuses ==> w.statuses[e] == w'.statuses[e])
  {
    RunsProject(policy, ls, e);
    RunsProject(policy, ls', e);
  }

  // ----- Failure is sticky -----

  /** No listing in `ls` omits the endpoint. */
  ghost predicate NeverOmitted(ls: seq<Label>, e: Endpoint) {
    forall k | 0 <= k < |ls| && ls[k].Listed? :: e in ls[k].target
  }

  ghost predicate FailedFor(policy: ReconnectPolicy, w: World, e: Endpoint, id: nat) {
    && e in w.statuses && w.statuses[e] == Failed && e in w.target
    && e in Tracked(w) && Tracked(w)[e] == id && id < |w.jobs| && HasGivenUp(policy, w.jobs[id].history)
  }

  lemma FailedHasATask(policy: ReconnectPolicy, w: World, e: Endpoint)
    requires Invariant(policy, w) && e in w.statuses && w.statuses[e] == Failed && e in w.target
    ensures e in Tracked(w) && FailedFor(policy, w, e, Tracked(w)[e])
  {
    hide After, HasGivenUp, HasExited;
  }

  lemma FailedForBound(policy: ReconnectPolicy, w: World, e: Endpoint, id: nat)
    requires FailedFor(policy, w, e, id)
    ensures id < |w.jobs|
  {
  }

  lemma ActKeepsFailed(policy: ReconnectPolicy, w: World, k: nat, m: Moment, e: Endpoint, id: nat)
    requires FailedFor(policy, w, e, id) && k < |w.jobs| && CanTake(policy, w.jobs[k].history, w.jobs[k].signalled, m)
    ensures k != id
    ensures FailedFor(policy, TakeMoment(policy, w, k, m), e, id)
    ensures TakeMoment(policy, w, k, m).jobs[id] == w.jobs[id]
  {
    TakerIsLive(policy, w.jobs[k], m);
    hide After;
    assert Tracked(TakeMoment(policy, w, k, m)) == Tracked(w);
  }

  /** What the supervisor does to the handle of an endpoint that stays listed: nothing. */
  lemma AdvanceKeepsHandle(policy: ReconnectPolicy, w: World, l: Label, e: Endpoint)
    requires ControlAgrees(policy, w) && Advance(policy, w, l).Some? && e in w.target && e in Tracked(w)
    requires l.Listed? ==> e in l.target
    ensures var w' := Advance(policy, w, l).value;
            e in w'.target && e in Tracked(w') && Tracked(w')[e] == Tracked(w)[e]
  {
    hide After, HasGivenUp, HasExited;
    var w' := Advance(policy, w, l).value;
    if w.control.Joined? {
      assert Tracked(w') == Tracked(w) - {w.control.e};
    } else if w.control.Announced? {
      assert Tracked(w') == w.listeners[w.control.e := |w.jobs|];
    } else {
      assert Tracked(w') == Tracked(w);
    }
  }

  /** What the supervisor does to the task and the status of an endpoint it does not stop or start. */
  lemma AdvanceKeepsTask(policy: ReconnectPolicy, w: World, l: Label, e: Endpoint, id: nat)
    requires ControlAgrees(policy, w) && Advance(policy, w, l).Some? && id < |w.jobs|
    requires e in w.target && e in Tracked(w) && e in w.statuses
    ensures var w' := Advance(policy, w, l).value;
            && id < |w'.jobs| && w'.jobs[id].history == w.jobs[id].history
            && e in w'.statuses && w'.statuses[e] == w.statuses[e]
  {
    hide After, HasGivenUp, HasExited;
  }

  lemma AdvanceKeepsFailed(policy: ReconnectPolicy, w: World, l: Label, e: Endpoint, id: nat)
    requires ControlAgrees(policy, w) && FailedFor(policy, w, e, id) && Advance(policy, w, l).Some?
    requires l.Listed? ==> e in l.target
    ensures var w' := Advance(policy, w, l).value;
            FailedFor(policy, w', e, id) && w'.jobs[id].history == w.jobs[id].history
  {
    hide After, HasGivenUp, HasExited, Advance, ControlAgrees, Tracked;
    AdvanceKeepsHandle(policy, w, l, e);
    AdvanceKeepsTask(policy, w, l, e, id);
  }

  lemma StepKeepsFailed(policy: ReconnectPolicy, w: World, l: Label, e: Endpoint, id: nat)
    requires ControlAgrees(policy, w) && FailedFor(policy, w, e, id) && Apply(policy, w, l).Some?
    requires l.Listed? ==> e in l.target
    ensures var w' := Apply(policy, w, l).value;
            FailedFor(policy, w', e, id) && id < |w.jobs| && w'.jobs[id].history == w.jobs[id].history
    ensures l.Act? ==> l.id != id
  {
    hide Advance, TakeMoment, FailedFor, ControlAgrees, CanTake;
    FailedForBound(policy, w, e, id);
    if l.Act? {
      ActKeepsFailed(policy, w, l.id, l.m, e, id);
    } else {
      AdvanceKeepsFailed(policy, w, l, e, id);
    }
  }

  lemma AppendSnoc<T>(a: seq<T>, b: seq<T>)
    requires b != []
    ensures a + b == (a + b[..|b| - 1]) + [b[|b| - 1]]
  {
  }

  lemma InvariantHolds(policy: ReconnectPolicy, ls: seq<Label>)
    requires Execute(policy, ls).Some?
    ensures ControlAgrees(policy, Execute(policy, ls).value)
  {
    EveryRunKeepsInvariant(policy, ls);
  }

  lemma {:induction false} FailedStaysFailed(
      policy: ReconnectPolicy, ls: seq<Label>, more: seq<Label>, e: Endpoint, id: nat)
    requires Execute(policy, ls).Some? && FailedFor(policy, Execute(policy, ls).value, e, id)
    requires Execute(policy, ls + more).Some? && NeverOmitted(more, e)
    ensures var w, w' := Execute(policy, ls).value, Execute(policy, ls + more).value;
            && FailedFor(policy, w', e, id) && w'.jobs[id].history == w.jobs[id].history
    ensures forall k | 0 <= k < |more| && more[k].Act? :: more[k].id != id
    decreases |more|
  {
    hide Execute, Apply, FailedFor, Invariant;
    FailedForBound(policy, Execute(policy, ls).value, e, id);
    if more == [] {
      assert ls + more == ls;
    } else {
      var rest, l := more[..|more| - 1], more[|more| - 1];
      AppendSnoc(ls, more);
      ExecuteSnoc(policy, ls + rest, l);
      FailedStaysFailed(policy, ls, rest, e, id);
      var w := Execute(policy, ls + rest).value;
      InvariantHolds(policy, ls + rest);
      StepKeepsFailed(policy, w, l, e, id);
      forall k | 0 <= k < |more| && more[k].Act? ensures more[k].id != id {
        if k < |rest| {
          assert rest[k] == more[k];
        }
      }
    }
  }

  /** Once Failed, an endpoint stays Failed with the same task and the same history, through any
      interleaving, sweeps and drain, as long as no sweep omits it: it is not opened, pulled or
      recorded again. */
  lemma FailureIsSticky(policy: ReconnectPolicy, ls: seq<Label>, more: seq<Label>, e: Endpoint)
    requires Execute(policy, ls).Some? && Execute(policy, ls + more).Some?
    requires var w := Execute(policy, ls).value; e in w.statuses && w.statuses[e] == Failed && e in w.target
    requires NeverOmitted(more, e)
    ensures var w, w' := Execute(policy, ls).value, Execute(policy, ls + more).value;
            && e in w'.statuses && w'.statuses[e] == Failed
            && Project(w, e).Armed? && Project(w', e).Armed? && Project(w', e).history == Project(w, e).history
            && (forall k | 0 <= k < |more| && more[k].Act? :: e in Tracked(w) && more[k].id != Tracked(w)[e])
  {
    EveryRunKeepsInvariant(policy, ls);
    FailedHasATask(policy, Execute(policy, ls).value, e);
    FailedStaysFailed(policy, ls, more, e, Tracked(Execute(policy, ls).value)[e]);
    EveryRunKeepsInvariant(policy, ls + more);
    hide Execute, After, HasGivenUp, HasExited;
  }

  /** A failed endpoint is armed again only after a sweep omitted it, and then a new task starts
      with an empty history and the status Listening. */
  lemma RearmingNeedsAnOmission(policy: ReconnectPolicy, ls: seq<Label>, more: seq<Label>, e: Endpoint)
    requires Execute(policy, ls).Some? && Execute(policy, ls + more).Some?
    requires var w := Execute(policy, ls).value; e in w.statuses && w.statuses[e] == Failed && e in w.target
    requires Execute(policy, ls + more + [Spawn]).Some?
    requires Execute(policy, ls + more).value.control.Announced? && Execute(policy, ls + more).value.control.e == e
    ensures !NeverOmitted(more, e)
    ensures var w' := Execute(policy, ls + more + [Spawn]).value;
            Project(w', e) == Armed([], false) && e in w'.statuses && w'.statuses[e] == Listening
  {
    ExecuteSnoc(policy, ls + more, Spawn);
    EveryRunKeepsInvariant(policy, ls + more);
    if NeverOmitted(more, e) {
      FailureIsSticky(policy, ls, more, e);
      assert false;
    }
    RunsProject(policy, ls + more + [Spawn], e);
    assert After(policy, []) == Some(STARTED);
  }
}
