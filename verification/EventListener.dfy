/** One endpoint's listener task: open a stream, pull and record events, wait and reconnect, give up.

    A `Moment` is what one await point of the task resolved to. A history is the sequence of
    moments of a task so far, and `After` is the state the task is in after that history, when
    the history is possible at all. Everything that `select!`, the network or the sink decide is
    in the history; everything the task decides is in `Step`. */
module EventListener {
  import opened Wrappers

  import opened ReconnectBackoff

  // The identity of one event of the endpoint's stream.
  type Event = nat

  datatype Exit =
    | StoppedOpening    // the stop won while the open was pending
    | StoppedPulling    // the stop won while a pull was pending; the stream was closed
    | StoppedWaiting    // the stop won during the backoff
    | GaveUp            // the failure budget is exhausted; the status is Failed

  // The await point the task is suspended at.
  datatype Phase =
    | Opening
    | Pulling
    | Recording(event: Event)
    | Closing
    | Waiting
    | Exited(how: Exit)

  datatype Moment =
    | StopTaken
    | OpenOk
    | OpenFailed
    | PullEvent(event: Event)
    | PullEnded
    | PullFailed
    | Recorded(ok: bool)
    | CloseDone
    | Slept

  // What the task asks of the boundaries, in order.
  datatype Call =
    | Open
    | Pull
    | Ingest(event: Event)
    | Close
    | Sleep(delay: Duration)
    | MarkFailed

  datatype Task = Task(phase: Phase, failures: nat, calls: seq<Call>)

  /** A freshly spawned task: no failure yet, and the first open is pending. */
  const STARTED := Task(Opening, 0, [Open])

  /** The await points and what each can resolve to. A stop is observed while opening, pulling
      and waiting; never while an event is being recorded or a stream is being closed. */
  predicate Enabled(phase: Phase, m: Moment) {
    match phase
    case Opening => m.StopTaken? || m.OpenOk? || m.OpenFailed?
    case Pulling => m.StopTaken? || m.PullEvent? || m.PullEnded? || m.PullFailed?
    case Recording(_) => m.Recorded?
    case Closing => m.CloseDone?
    case Waiting => m.StopTaken? || m.Slept?
    case Exited(_) => false
  }

  /** One more failed cycle: give up when the budget is used, otherwise start the backoff. */
  function FailCycle(policy: ReconnectPolicy, t: Task): Task {
    var failures := t.failures + 1;
    if failures >= policy.maxAttempts
    then Task(Exited(GaveUp), failures, t.calls + [MarkFailed])
    else Task(Waiting, failures, t.calls + [Sleep(Delay(policy, failures))])
  }

  function Step(policy: ReconnectPolicy, t: Task, m: Moment): Task
    requires Enabled(t.phase, m)
  {
    match m
    case OpenOk => Task(Pulling, t.failures, t.calls + [Pull])
    case OpenFailed | PullEnded | PullFailed => FailCycle(policy, t)
    case PullEvent(e) => Task(Recording(e), 0, t.calls + [Ingest(e)])
    case Recorded(_) => Task(Pulling, t.failures, t.calls + [Pull])
    case CloseDone => t.(phase := Exited(StoppedPulling))
    case Slept => Task(Opening, t.failures, t.calls + [Open])
    case StopTaken =>
      if t.phase.Opening? then t.(phase := Exited(StoppedOpening))
      else if t.phase.Waiting? then t.(phase := Exited(StoppedWaiting))
      else Task(Closing, t.failures, t.calls + [Close])
  }

  /** The state after a history, or None when the history cannot happen. */
  function After(policy: ReconnectPolicy, h: seq<Moment>): Option<Task> {
    if h == [] then Some(STARTED)
    else
      var before := After(policy, h[..|h| - 1]);
      if before.Some? && Enabled(before.value.phase, h[|h| - 1])
      then Some(Step(policy, before.value, h[|h| - 1]))
      else None
  }

  ghost predicate Possible(policy: ReconnectPolicy, h: seq<Moment>) {
    After(policy, h).Some?
  }

  lemma AfterSnoc(policy: ReconnectPolicy, h: seq<Moment>, m: Moment)
    ensures After(policy, h + [m]) ==
            var before := After(policy, h);
            if before.Some? && Enabled(before.value.phase, m) then Some(Step(policy, before.value, m)) else None
  {
    assert (h + [m])[..|h|] == h;
  }

  lemma {:induction false} PrefixIsPossible(policy: ReconnectPolicy, h: seq<Moment>, k: nat)
    requires Possible(policy, h) && k <= |h|
    ensures Possible(policy, h[..k])
    decreases |h|
  {
    if k == |h| {
      assert h[..k] == h;
    } else {
      PrefixIsPossible(policy, h[..|h| - 1], k);
      assert h[..|h| - 1][..k] == h[..k];
    }
  }

  // ----- The task as the program runs it -----

  datatype ReconnectOutcome = Retry | GiveUp | Stopped | StillWaiting

  /** What the loops need to know when they read moment `i` of a possible history: the moment is
      one the await point they are at can resolve to, and it leads to `Step`. */
  lemma ReadMoment(policy: ReconnectPolicy, h: seq<Moment>, i: nat, t: Task)
    requires Possible(policy, h) && i < |h|
    requires After(policy, h[..i]) == Some(t)
    ensures Enabled(t.phase, h[i])
    ensures After(policy, h[..i + 1]) == Some(Step(policy, t, h[i]))
  {
    PrefixIsPossible(policy, h, i + 1);
    assert h[..i + 1] == h[..i] + [h[i]];
    AfterSnoc(policy, h[..i], h[i]);
  }

  /** A task that exited sees no further moment. */
  lemma ExitEndsHistory(policy: ReconnectPolicy, h: seq<Moment>, i: nat, t: Task)
    requires Possible(policy, h) && i <= |h|
    requires After(policy, h[..i]) == Some(t) && t.phase.Exited?
    ensures i == |h| && After(policy, h) == Some(t)
  {
    if i < |h| {
      ReadMoment(policy, h, i, t);
    }
    assert h[..i] == h;
  }

  /** One bounded reconnect wait: advance the failure budget, then give up or back off. `next` is
      the number of moments consumed and `t` the state of the task when the wait is over. */
  method ReconnectWait(policy: ReconnectPolicy, h: seq<Moment>, i: nat, consecutiveFailures: nat, calls: seq<Call>)
    returns (outcome: ReconnectOutcome, next: nat, t: Task)
    requires Possible(policy, h) && i <= |h|
    requires After(policy, h[..i]) == Some(FailCycle(policy, Task(Opening, consecutiveFailures, calls)))
    ensures i <= next <= |h| && After(policy, h[..next]) == Some(t)
    ensures outcome.Retry? ==> next == i + 1 && t.phase == Opening
    ensures outcome.GiveUp? <==> consecutiveFailures + 1 >= policy.maxAttempts
    ensures outcome.GiveUp? ==> t.phase == Exited(GaveUp)
    ensures outcome.Stopped? ==> t.phase == Exited(StoppedWaiting)
    ensures outcome.StillWaiting? ==> next == |h| && t.phase == Waiting
  {
    var failures := consecutiveFailures + 1;
    if failures >= policy.maxAttempts {
      return GiveUp, i, Task(Exited(GaveUp), failures, calls + [MarkFailed]);
    }
    var delay := ComputeDelay(policy, failures);
    t := Task(Waiting, failures, calls + [Sleep(delay)]);
    if i == |h| {
      return StillWaiting, i, t;
    }
    ReadMoment(policy, h, i, t);
    match h[i] {
      case StopTaken => return Stopped, i + 1, t.(phase := Exited(StoppedWaiting));
      case Slept => return Retry, i + 1, Task(Opening, failures, t.calls + [Open]);
    }
  }

  /** The consume phase of one open stream: pull one event at a time and record it, until the
      stream ends or fails (`ended`), or the history is over or the task exited. */
  method ConsumeStream(policy: ReconnectPolicy, h: seq<Moment>, start: nat, consecutiveFailures: nat, calls: seq<Call>)
    returns (ended: bool, i: nat, t: Task)
    requires Possible(policy, h) && start <= |h|
    requires After(policy, h[..start]) == Some(Task(Pulling, consecutiveFailures, calls))
    ensures start <= i <= |h|
    ensures ended ==> After(policy, h[..i]) == Some(FailCycle(policy, t))
    ensures !ended ==> After(policy, h) == Some(t)
  {
    hide After;
    i, t := start, Task(Pulling, consecutiveFailures, calls);
    while i < |h|
      invariant start <= i <= |h| && t.phase == Pulling && After(policy, h[..i]) == Some(t)
    {
      ReadMoment(policy, h, i, t);
      var item := h[i];
      i := i + 1;
      if item == PullEnded || item == PullFailed {
        return true, i, t;
      }
      if item == StopTaken {
        // The pending pull is abandoned and the stream is closed gracefully.
        t := Task(Closing, t.failures, t.calls + [Close]);
        if i < |h| {
          ReadMoment(policy, h, i, t);
          t := t.(phase := Exited(StoppedPulling));
          ExitEndsHistory(policy, h, i + 1, t);
        }
        break;
      }
      // A delivered event restores the budget; its ingest is outside the select, so that no
      // stop interrupts it.
      t := Task(Recording(item.event), 0, t.calls + [Ingest(item.event)]);
      if i == |h| {
        break;
      }
      ReadMoment(policy, h, i, t);
      i := i + 1;
      t := Task(Pulling, 0, t.calls + [Pull]);
    }
    assert h[..|h|] == h;
    return false, |h|, t;
  }

  lemma Initially(policy: ReconnectPolicy, h: seq<Moment>)
    ensures After(policy, h[..0]) == Some(STARTED)
  {
  }

  /** The listener loop: open a stream, consume it, wait. Running it on a possible history leaves
      the task exactly where `After` says. */
  method RunEndpointStream(policy: ReconnectPolicy, h: seq<Moment>) returns (t: Task)
    requires Possible(policy, h)
    ensures After(policy, h) == Some(t)
    ensures t.phase == StandsAt(policy, h) && t.calls == [Open] + Asked(policy, h)
    ensures Count(t.calls, Close) == StopsWhilePulling(h)
  {
    hide StandsAt, Asked, StopsWhilePulling, Count, After;
    HistoryTells(policy, h);
    ClosesAreStopsWhilePulling(policy, h);
    Initially(policy, h);
    t := STARTED;
    var i := 0;
    while i < |h|
      invariant i <= |h| && t.phase == Opening && After(policy, h[..i]) == Some(t)
    {
      ReadMoment(policy, h, i, t);
      var resolved := h[i];
      i := i + 1;
      if resolved == StopTaken {
        t := t.(phase := Exited(StoppedOpening));
        ExitEndsHistory(policy, h, i, t);
        return;
      }
      if resolved == OpenOk {
        var ended;
        ended, i, t := ConsumeStream(policy, h, i, t.failures, t.calls + [Pull]);
        if !ended {
          return;
        }
      }
      var outcome;
      outcome, i, t := ReconnectWait(policy, h, i, t.failures, t.calls);
      if outcome != Retry {
        if t.phase.Exited? {
          ExitEndsHistory(policy, h, i, t);
        }
        assert h[..|h|] == h;
        return;
      }
    }
    assert h[..|h|] == h;
  }

  // ----- What every history guarantees -----

  predicate EndsCycle(m: Moment) {
    m.OpenFailed? || m.PullEnded? || m.PullFailed?
  }

  /** The stream cycles that ended since the last delivered event. */
  function CyclesSinceDelivery(h: seq<Moment>): nat {
    if h == [] then 0
    else
      var m := h[|h| - 1];
      if m.PullEvent? then 0
      else CyclesSinceDelivery(h[..|h| - 1]) + (if EndsCycle(m) then 1 else 0)
  }

  /** The events the pulls handed over, in order. */
  function Delivered(h: seq<Moment>): seq<Event> {
    if h == [] then []
    else
      var m := h[|h| - 1];
      Delivered(h[..|h| - 1]) + (if m.PullEvent? then [m.event] else [])
  }

  function Ingested(calls: seq<Call>): seq<Event> {
    if calls == [] then []
    else
      var c := calls[|calls| - 1];
      Ingested(calls[..|calls| - 1]) + (if c.Ingest? then [c.event] else [])
  }

  function Count(calls: seq<Call>, c: Call): nat {
    if calls == [] then 0
    else Count(calls[..|calls| - 1], c) + (if calls[|calls| - 1] == c then 1 else 0)
  }

  /** The waits since the last ingested event. */
  function WaitsSinceIngest(calls: seq<Call>): seq<Duration> {
    if calls == [] then []
    else
      var c := calls[|calls| - 1];
      if c.Ingest? then []
      else WaitsSinceIngest(calls[..|calls| - 1]) + (if c.Sleep? then [c.delay] else [])
  }

  function Budget(policy: ReconnectPolicy): nat {
    if policy.maxAttempts == 0 then 1 else policy.maxAttempts
  }

  ghost predicate Consistent(policy: ReconnectPolicy, h: seq<Moment>, t: Task) {
    && t.failures == CyclesSinceDelivery(h)
    && (t.phase == Exited(GaveUp) <==> t.failures == Budget(policy))
    && t.failures <= Budget(policy)
    && Ingested(t.calls) == Delivered(h)
    && WaitsSinceIngest(t.calls) == Delays(policy, if t.phase == Exited(GaveUp) then t.failures - 1 else t.failures)
    && Count(t.calls, Close) == (if t.phase == Closing || t.phase == Exited(StoppedPulling) then 1 else 0)
    && Count(t.calls, MarkFailed) == (if t.phase == Exited(GaveUp) then 1 else 0)
    && (t.phase.Recording? ==> |t.calls| > 0 && t.calls[|t.calls| - 1] == Ingest(t.phase.event))
  }

  lemma CallsSnoc(calls: seq<Call>, c: Call)
    ensures Ingested(calls + [c]) == Ingested(calls) + (if c.Ingest? then [c.event] else [])
    ensures Count(calls + [c], Close) == Count(calls, Close) + (if c == Close then 1 else 0)
    ensures Count(calls + [c], MarkFailed) == Count(calls, MarkFailed) + (if c == MarkFailed then 1 else 0)
    ensures WaitsSinceIngest(calls + [c]) ==
            if c.Ingest? then [] else WaitsSinceIngest(calls) + (if c.Sleep? then [c.delay] else [])
  {
    assert (calls + [c])[..|calls|] == calls;
  }

  lemma HistorySnoc(h: seq<Moment>, m: Moment)
    ensures CyclesSinceDelivery(h + [m]) ==
            if m.PullEvent? then 0 else CyclesSinceDelivery(h) + (if EndsCycle(m) then 1 else 0)
    ensures Delivered(h + [m]) == Delivered(h) + (if m.PullEvent? then [m.event] else [])
  {
    assert (h + [m])[..|h|] == h;
  }

  lemma FailCycleConsistent(policy: ReconnectPolicy, h: seq<Moment>, t: Task, m: Moment)
    requires Consistent(policy, h, t) && (t.phase.Opening? || t.phase.Pulling?) && EndsCycle(m)
    ensures Consistent(policy, h + [m], FailCycle(policy, t))
  {
    hide CyclesSinceDelivery, Delivered, Ingested, Count, WaitsSinceIngest;
    HistorySnoc(h, m);
    var failures := t.failures + 1;
    if failures >= policy.maxAttempts {
      CallsSnoc(t.calls, MarkFailed);
    } else {
      CallsSnoc(t.calls, Sleep(Delay(policy, failures)));
    }
  }

  /** Opens, pulls and the start of the next open change neither the budget nor the counts. */
  lemma QuietStepConsistent(policy: ReconnectPolicy, h: seq<Moment>, t: Task, m: Moment, c: Call, phase: Phase)
    requires Consistent(policy, h, t) && !t.phase.Exited? && !t.phase.Closing?
    requires !EndsCycle(m) && !m.PullEvent? && (c == Open || c == Pull) && (phase == Opening || phase == Pulling)
    ensures Consistent(policy, h + [m], Task(phase, t.failures, t.calls + [c]))
  {
    hide CyclesSinceDelivery, Delivered, Ingested, Count, WaitsSinceIngest;
    HistorySnoc(h, m);
    CallsSnoc(t.calls, c);
  }

  lemma DeliveryConsistent(policy: ReconnectPolicy, h: seq<Moment>, t: Task, e: Event)
    requires Consistent(policy, h, t) && t.phase.Pulling?
    ensures Consistent(policy, h + [PullEvent(e)], Task(Recording(e), 0, t.calls + [Ingest(e)]))
  {
    hide CyclesSinceDelivery, Delivered, Ingested, Count, WaitsSinceIngest;
    HistorySnoc(h, PullEvent(e));
    CallsSnoc(t.calls, Ingest(e));
  }

  lemma StopConsistent(policy: ReconnectPolicy, h: seq<Moment>, t: Task, m: Moment)
    requires Consistent(policy, h, t) && Enabled(t.phase, m) && (m.StopTaken? || m.CloseDone?)
    ensures Consistent(policy, h + [m], Step(policy, t, m))
  {
    hide CyclesSinceDelivery, Delivered, Ingested, Count, WaitsSinceIngest;
    HistorySnoc(h, m);
    CallsSnoc(t.calls, Close);
  }

  lemma StepConsistent(policy: ReconnectPolicy, h: seq<Moment>, t: Task, m: Moment)
    requires Consistent(policy, h, t) && Enabled(t.phase, m)
    ensures Consistent(policy, h + [m], Step(policy, t, m))
  {
    match m {
      case PullEvent(e) => DeliveryConsistent(policy, h, t, e);
      case OpenOk => QuietStepConsistent(policy, h, t, m, Pull, Pulling);
      case Recorded(_) => QuietStepConsistent(policy, h, t, m, Pull, Pulling);
      case Slept => QuietStepConsistent(policy, h, t, m, Open, Opening);
      case StopTaken => StopConsistent(policy, h, t, m);
      case CloseDone => StopConsistent(policy, h, t, m);
      case _ => FailCycleConsistent(policy, h, t, m);
    }
  }

  /** The failure count is the number of cycles since the last delivery; the status is marked
      Failed once, exactly when the count reaches the budget; delivered events are ingested once
      each and in order; a stream is closed once when a stop is taken while pulling and never
      otherwise; the waits since the last event are exactly the first delays of the policy. */
  lemma {:induction false} EveryHistoryIsConsistent(policy: ReconnectPolicy, h: seq<Moment>)
    requires Possible(policy, h)
    ensures Consistent(policy, h, After(policy, h).value)
  {
    if h == [] {
      CallsSnoc([], Open);
    } else {
      EveryHistoryIsConsistent(policy, h[..|h| - 1]);
      StepConsistent(policy, h[..|h| - 1], After(policy, h[..|h| - 1]).value, h[|h| - 1]);
      assert h[..|h| - 1] + [h[|h| - 1]] == h;
    }
  }

  // ----- The task told from its history alone -----

  /** An open is pending: nothing has happened yet, or a backoff has just elapsed. */
  predicate AwaitsOpen(h: seq<Moment>) {
    h == [] || h[|h| - 1].Slept?
  }

  /** A pull is pending: the stream has just been opened, or an event has just been recorded. */
  predicate AwaitsPull(h: seq<Moment>) {
    h != [] && (h[|h| - 1].OpenOk? || h[|h| - 1].Recorded?)
  }

  /** A cycle has just ended. */
  predicate CycleJustEnded(h: seq<Moment>) {
    h != [] && EndsCycle(h[|h| - 1])
  }

  /** A stop has just been taken. */
  predicate StopJustTaken(h: seq<Moment>) {
    h != [] && h[|h| - 1].StopTaken?
  }

  predicate OutOfBudget(policy: ReconnectPolicy, h: seq<Moment>) {
    CyclesSinceDelivery(h) >= policy.maxAttempts
  }

  /** Where a task stands after a history, by its last two moments and its failed cycles. */
  function StandsAt(policy: ReconnectPolicy, h: seq<Moment>): Phase {
    if AwaitsOpen(h) then Opening
    else if AwaitsPull(h) then Pulling
    else if h[|h| - 1].PullEvent? then Recording(h[|h| - 1].event)
    else if CycleJustEnded(h) then (if OutOfBudget(policy, h) then Exited(GaveUp) else Waiting)
    else if h[|h| - 1].CloseDone? then Exited(StoppedPulling)
    else if AwaitsPull(h[..|h| - 1]) then Closing
    else if AwaitsOpen(h[..|h| - 1]) then Exited(StoppedOpening)
    else Exited(StoppedWaiting)
  }

  /** What a task has asked of the boundaries after its first open, moment by moment. */
  function Asked(policy: ReconnectPolicy, h: seq<Moment>): seq<Call> {
    if h == [] then []
    else Asked(policy, h[..|h| - 1]) + AskedLast(policy, h)
  }

  /** What the last moment of a history made the task ask for. */
  function AskedLast(policy: ReconnectPolicy, h: seq<Moment>): seq<Call>
    requires h != []
  {
    if AwaitsOpen(h) then [Open]
    else if AwaitsPull(h) then [Pull]
    else if h[|h| - 1].PullEvent? then [Ingest(h[|h| - 1].event)]
    else if CycleJustEnded(h) then
      (if OutOfBudget(policy, h) then [MarkFailed] else [Sleep(Delay(policy, CyclesSinceDelivery(h)))])
    else if StopJustTaken(h) && AwaitsPull(h[..|h| - 1]) then [Close]
    else []
  }

  /** The moments that can follow a history. */
  predicate MayFollow(policy: ReconnectPolicy, h: seq<Moment>, m: Moment) {
    if AwaitsOpen(h) then m == StopTaken || m == OpenOk || m == OpenFailed
    else if AwaitsPull(h) then m == StopTaken || m.PullEvent? || m == PullEnded || m == PullFailed
    else if h[|h| - 1].PullEvent? then m.Recorded?
    else if CycleJustEnded(h) then !OutOfBudget(policy, h) && (m == StopTaken || m == Slept)
    else StopJustTaken(h) && AwaitsPull(h[..|h| - 1]) && m == CloseDone
  }

  /** The stops taken while a pull was pending. */
  function StopsWhilePulling(h: seq<Moment>): nat {
    if h == [] then 0
    else StopsWhilePulling(h[..|h| - 1]) + (if StopJustTaken(h) && AwaitsPull(h[..|h| - 1]) then 1 else 0)
  }

  lemma HistoryTellsSnoc(policy: ReconnectPolicy, h: seq<Moment>, t: Task, m: Moment)
    requires t.failures == CyclesSinceDelivery(h) && t.phase == StandsAt(policy, h) && Enabled(t.phase, m)
    ensures Step(policy, t, m).phase == StandsAt(policy, h + [m])
    ensures Step(policy, t, m).calls == t.calls + AskedLast(policy, h + [m])
  {
    hide CyclesSinceDelivery, Delay;
    HistorySnoc(h, m);
    var g := h + [m];
    assert g[..|g| - 1] == h;
    if m.StopTaken? || m.CloseDone? {
      assert t.calls + [] == t.calls;
    }
  }

  lemma StandsAtTheStart(policy: ReconnectPolicy)
    ensures StandsAt(policy, []) == Opening
  {
  }

  lemma FailuresAreCycles(policy: ReconnectPolicy, h: seq<Moment>)
    requires Possible(policy, h)
    ensures After(policy, h).value.failures == CyclesSinceDelivery(h)
  {
    EveryHistoryIsConsistent(policy, h);
  }

  /** Where the task is and all it asked for, told from the history without the machine: a stop
      taken while opening or waiting exits at once and asks for nothing, one taken while pulling
      closes the stream first. */
  lemma {:induction false} HistoryTells(policy: ReconnectPolicy, h: seq<Moment>)
    requires Possible(policy, h)
    ensures After(policy, h).value.phase == StandsAt(policy, h)
    ensures After(policy, h).value.calls == [Open] + Asked(policy, h)
    decreases |h|
  {
    hide StandsAt, AskedLast, Step, Enabled, CyclesSinceDelivery;
    if h == [] {
      StandsAtTheStart(policy);
    } else {
      var g, m := h[..|h| - 1], h[|h| - 1];
      HistoryTells(policy, g);
      FailuresAreCycles(policy, g);
      HistoryTellsSnoc(policy, g, After(policy, g).value, m);
      assert g + [m] == h;
    }
  }

  /** The moments that can come next are those of the pending await point and no others; a stop
      is among them exactly while opening, pulling or waiting. */
  lemma FollowsExactly(policy: ReconnectPolicy, h: seq<Moment>, m: Moment)
    requires Possible(policy, h)
    ensures Possible(policy, h + [m]) <==> MayFollow(policy, h, m)
  {
    HistoryTells(policy, h);
    hide After, Asked, CyclesSinceDelivery;
    AfterSnoc(policy, h, m);
  }

  /** A stop taken while no stream is open ends the task there and then, and closes nothing. */
  lemma StopWithoutStreamExits(policy: ReconnectPolicy, h: seq<Moment>)
    requires Possible(policy, h) && Possible(policy, h + [StopTaken]) && !AwaitsPull(h)
    ensures After(policy, h + [StopTaken]).value.phase.Exited?
    ensures After(policy, h + [StopTaken]).value.calls == After(policy, h).value.calls
  {
    HistoryTells(policy, h);
    HistoryTells(policy, h + [StopTaken]);
    assert (h + [StopTaken])[..|h|] == h;
  }

  lemma AskedLastCloses(policy: ReconnectPolicy, h: seq<Moment>)
    requires h != []
    ensures |AskedLast(policy, h)| <= 1
    ensures AskedLast(policy, h) == [Close] <==> StopJustTaken(h) && AwaitsPull(h[..|h| - 1])
  {
    hide CyclesSinceDelivery;
  }

  lemma {:induction false} AskedCloses(policy: ReconnectPolicy, h: seq<Moment>)
    ensures Count([Open] + Asked(policy, h), Close) == StopsWhilePulling(h)
    decreases |h|
  {
    if h == [] {
      CallsSnoc([], Open);
      assert [] + [Open] == [Open] + Asked(policy, h);
    } else {
      hide Count, AskedLast, CyclesSinceDelivery;
      var g, last := h[..|h| - 1], AskedLast(policy, h);
      AskedCloses(policy, g);
      AskedLastCloses(policy, h);
      assert [Open] + Asked(policy, h) == ([Open] + Asked(policy, g)) + last;
      if last == [] {
        assert ([Open] + Asked(policy, g)) + last == [Open] + Asked(policy, g);
      } else {
        CallsSnoc([Open] + Asked(policy, g), last[0]);
        assert last == [last[0]];
      }
    }
  }

  /** The streams a task closes are the stops it took while a pull was pending. */
  lemma ClosesAreStopsWhilePulling(policy: ReconnectPolicy, h: seq<Moment>)
    requires Possible(policy, h)
    ensures Count(After(policy, h).value.calls, Close) == StopsWhilePulling(h)
  {
    HistoryTells(policy, h);
    AskedCloses(policy, h);
  }

  /** A task that took no stop is not closing, and it exits only by giving up. */
  lemma {:induction false} UnstoppedTaskGivesUp(policy: ReconnectPolicy, h: seq<Moment>)
    requires Possible(policy, h) && StopTaken !in h
    ensures var phase := After(policy, h).value.phase;
            !phase.Closing? && (phase.Exited? ==> phase == Exited(GaveUp))
    decreases |h|
  {
    if h != [] {
      var g, m := h[..|h| - 1], h[|h| - 1];
      assert forall x | x in g :: x in h;
      UnstoppedTaskGivesUp(policy, g);
      assert m in h;
    }
  }

  /** A stop that lands while an event is being recorded waits for the record: the only moment
      a recording task can see is the end of that record, and it loses nothing. */
  lemma StopWaitsForTheRecord(policy: ReconnectPolicy, h: seq<Moment>, m: Moment)
    requires Possible(policy, h + [m]) && Possible(policy, h)
    requires After(policy, h).value.phase.Recording?
    ensures m.Recorded? && After(policy, h + [m]).value.phase == Pulling
    ensures Ingested(After(policy, h + [m]).value.calls) == Delivered(h)
  {
    AfterSnoc(policy, h, m);
    EveryHistoryIsConsistent(policy, h + [m]);
    assert (h + [m])[..|h|] == h;
  }

  /** All the backoff since the last event of a task that gave up: the sum of the first
      `maxAttempts - 1` delays. */
  lemma GivingUpCostsTheWholeBudget(policy: ReconnectPolicy, h: seq<Moment>)
    requires Possible(policy, h) && After(policy, h).value.phase == Exited(GaveUp)
    ensures Sum(WaitsSinceIngest(After(policy, h).value.calls)) == Sum(Delays(policy, Budget(policy) - 1))
    ensures policy == DEFAULT_POLICY ==>
              Sum(WaitsSinceIngest(After(policy, h).value.calls)) == 243 * NANOS_PER_SECOND
  {
    EveryHistoryIsConsistent(policy, h);
    if policy == DEFAULT_POLICY {
      ProductionWaitsSumTo243Seconds();
    }
  }

  // ----- Termination -----

  /** How many moments a task can still see when at most `events` more events are delivered. */
  function Fuel(policy: ReconnectPolicy, t: Task, events: nat): nat {
    var rest := if t.failures <= Budget(policy) then Budget(policy) - t.failures else 0;
    match t.phase
    case Exited(_) => 0
    case Closing => 1
    case Opening => events * (3 * Budget(policy) + 5) + 3 * rest + 2
    case Pulling => events * (3 * Budget(policy) + 5) + 3 * rest + 1
    case Recording(_) => events * (3 * Budget(policy) + 5) + 3 * rest + 2
    case Waiting => events * (3 * Budget(policy) + 5) + 3 * rest + 3
  }

  lemma StepBurnsFuel(policy: ReconnectPolicy, t: Task, m: Moment, events: nat)
    requires Enabled(t.phase, m) && t.failures <= Budget(policy)
    requires t.failures == Budget(policy) ==> t.phase == Exited(GaveUp)
    requires m.PullEvent? ==> events >= 1
    ensures Fuel(policy, Step(policy, t, m), if m.PullEvent? then events - 1 else events) < Fuel(policy, t, events)
  {
    if m.PullEvent? {
      var k := 3 * Budget(policy) + 5;
      assert events * k == (events - 1) * k + k;
    }
  }

  lemma {:induction false} HistoryBurnsFuel(policy: ReconnectPolicy, h: seq<Moment>, events: nat)
    requires Possible(policy, h) && |Delivered(h)| <= events
    ensures |h| + Fuel(policy, After(policy, h).value, events - |Delivered(h)|) <= Fuel(policy, STARTED, events)
  {
    if h != [] {
      var g, m := h[..|h| - 1], h[|h| - 1];
      HistoryBurnsFuel(policy, g, events);
      EveryHistoryIsConsistent(policy, g);
      StepBurnsFuel(policy, After(policy, g).value, m, events - |Delivered(g)|);
    }
  }

  /** A task that is delivered at most `events` events sees only boundedly many moments, so it
      cannot run forever: each history has an explicit bound on its length. */
  lemma FinitelyManyEventsTerminate(policy: ReconnectPolicy, h: seq<Moment>, events: nat)
    requires Possible(policy, h) && |Delivered(h)| <= events
    ensures |h| <= events * (3 * Budget(policy) + 5) + 3 * Budget(policy) + 2
  {
    HistoryBurnsFuel(policy, h, events);
  }
}
