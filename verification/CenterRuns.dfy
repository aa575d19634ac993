/** The two connection objects inside the machine of both ends: what either object does, statement by
    statement and with the other end and the network moving in between, is a run of the machine. So what is
    proved about every run holds at every statement of both objects. */
module CenterRuns {
  import opened Wrappers

  import opened CenterWire
  import opened CenterConnection
  import opened CenterProtocol

  /** Whose step it is: the object's own next statement, a heartbeat tick of the site, or a step of the other
      end or of the network. */
  datatype Turn = Own | Beat(fate: Fate) | Others(step: Label)

  lemma ExecuteSnoc(build: Build, ls: seq<Label>, l: Label)
    ensures Execute(build, ls + [l]) ==
            if Execute(build, ls).Some? then Apply(build, Execute(build, ls).value, l) else None
  {
    assert (ls + [l])[..|ls|] == ls;
  }

  /** What is left of a dispatch: the replies still to send. */
  function Finish(c: Conn, pending: seq<Reply>): Conn {
    var (counters, out) := SendAll(c.counters, pending);
    Conn(counters, c.wire + out, c.handled)
  }

  lemma FinishOne(c: Conn, pending: seq<Reply>)
    requires pending != []
    ensures var s := SendStep(c.counters, pending[0].message, pending[0].fate);
            Finish(Conn(s.counters, c.wire + Wire(s.wire), c.handled), pending[1..]) == Finish(c, pending)
  {
    var s := SendStep(c.counters, pending[0].message, pending[0].fate);
    var rest := SendAll(s.counters, pending[1..]).1;
    assert c.wire + Wire(s.wire) + rest == c.wire + (Wire(s.wire) + rest);
  }

  lemma FinishNothing(c: Conn)
    ensures Finish(c, []) == c
  {
    assert c.wire + [] == c.wire;
  }

  lemma {:induction false} DispatchAllSnoc(c: Conn, es: seq<Envelope>, e: Envelope, handler: Handler)
    ensures DispatchAll(c, es + [e], handler) == Dispatch(DispatchAll(c, es, handler), e, handler)
    decreases |es|
  {
    if es == [] {
      assert es + [e] == [e] && [e][1..] == [];
    } else {
      assert (es + [e])[1..] == es[1..] + [e];
      DispatchAllSnoc(Dispatch(c, es[0], handler), es[1..], e, handler);
    }
  }

  // ----- The center's loop -----

  function CenterConn(s: System): Conn {
    Conn(s.center, s.down.sent, s.centerHandled)
  }

  predicate IsCenters(l: Label) {
    l.CenterReads? || l.CenterDecides? || l.CenterSends? || l.CenterQuits?
  }

  lemma OthersLeaveTheCenter(build: Build, s: System, l: Label)
    requires !IsCenters(l) && Apply(build, s, l).Some?
    ensures var s' := Apply(build, s, l).value;
            && CenterConn(s') == CenterConn(s) && s'.centerStage == s.centerStage
            && s'.decision == s.decision && s'.admission == s.admission
  {
    hide Negotiate, ReadAnswer;
  }

  /** Where a loop is: the state of both ends, the steps so far, what was read, and the replies not yet sent. */
  datatype Play = Play(s: System, labels: seq<Label>, read: seq<Envelope>, pending: seq<Reply>)

  /** One turn of the center's loop; None when the turn cannot happen. */
  function CenterTurn(build: Build, p: Play, turn: Turn, handler: Handler): Option<Play> {
    match turn
    case Beat(_) => None
    case Others(l) =>
      if IsCenters(l) || Apply(build, p.s, l).None? then None
      else Some(p.(s := Apply(build, p.s, l).value, labels := p.labels + [l]))
    case Own =>
      if p.pending != [] then
        var l := CenterSends(p.pending[0].message, p.pending[0].fate);
        if Apply(build, p.s, l).None? then None
        else Some(Play(Apply(build, p.s, l).value, p.labels + [l], p.read, p.pending[1..]))
      else if p.s.up.inFlight != [] && Apply(build, p.s, CenterReads).Some? then
        var e := p.s.up.inFlight[0];
        Some(Play(Apply(build, p.s, CenterReads).value, p.labels + [CenterReads], p.read + [e],
                  handler(p.s.centerHandled, e)))
      else None
  }

  function CenterPlay(build: Build, s: System, turns: seq<Turn>, handler: Handler): Option<Play> {
    if turns == [] then Some(Play(s, [], [], []))
    else
      var before := CenterPlay(build, s, turns[..|turns| - 1], handler);
      if before.None? then None else CenterTurn(build, before.value, turns[|turns| - 1], handler)
  }

  /** What the loop keeps: it is where a run of the machine is, and finishing the pending replies gives what
      the object has after dispatching what was read. */
  ghost predicate CenterInStep(build: Build, ls: seq<Label>, start: System, p: Play, handler: Handler) {
    && Execute(build, ls + p.labels) == Some(p.s) && p.s.centerStage.Serving?
    && Finish(CenterConn(p.s), p.pending) == DispatchAll(CenterConn(start), p.read, handler)
  }

  lemma CenterTurnKeepsStep(build: Build, ls: seq<Label>, start: System, p: Play, turn: Turn, handler: Handler)
    requires CenterInStep(build, ls, start, p, handler) && CenterTurn(build, p, turn, handler).Some?
    ensures CenterInStep(build, ls, start, CenterTurn(build, p, turn, handler).value, handler)
  {
    hide Execute, SendStep, SendAll, DispatchAll, Negotiate;
    var p' := CenterTurn(build, p, turn, handler).value;
    var l := p'.labels[|p.labels|];
    assert ls + p'.labels == ls + p.labels + [l];
    ExecuteSnoc(build, ls + p.labels, l);
    if turn.Others? {
      OthersLeaveTheCenter(build, p.s, l);
    } else if p.pending != [] {
      FinishOne(CenterConn(p.s), p.pending);
      CenterSendsOne(p.s, p.pending[0]);
    } else {
      FinishNothing(CenterConn(p.s));
      DispatchAllSnoc(CenterConn(start), p.read, p.s.up.inFlight[0], handler);
    }
  }

  lemma CenterSendsOne(s: System, r: Reply)
    ensures var sending := SendStep(s.center, r.message, r.fate);
            CenterConn(CenterSend(s, r.message, r.fate))
            == Conn(sending.counters, s.down.sent + Wire(sending.wire), s.centerHandled)
  {
    assert s.down.sent + [] == s.down.sent;
  }

  /** However the center's statements interleave with the other end and the network, they are a run of the
      machine, and its handler and its wire are those of the loop on what was read. */
  lemma {:induction false} CenterLoopIsARun(build: Build, ls: seq<Label>, turns: seq<Turn>, handler: Handler)
    requires Execute(build, ls).Some? && Execute(build, ls).value.centerStage.Serving?
    requires CenterPlay(build, Execute(build, ls).value, turns, handler).Some?
    ensures var s := Execute(build, ls).value;
            CenterInStep(build, ls, s, CenterPlay(build, s, turns, handler).value, handler)
  {
    var s := Execute(build, ls).value;
    if turns == [] {
      assert ls + [] == ls;
      FinishNothing(CenterConn(s));
    } else {
      hide CenterInStep, CenterTurn, Execute;
      CenterLoopIsARun(build, ls, turns[..|turns| - 1], handler);
      CenterTurnKeepsStep(build, ls, s, CenterPlay(build, s, turns[..|turns| - 1], handler).value,
                          turns[|turns| - 1], handler);
    }
  }

  /** The center's frame loop run as part of a connection: an object in step with the machine, given the
      reads that carry what the channel delivered, is in step with it when the loop is over. So at its end the
      sequences of both ends agree. */
  method CenterRunsInStep(c: CenterEnd, build: Build, ghost ls: seq<Label>, ghost turns: seq<Turn>, handler: Handler)
    returns (end: End, ghost labels: seq<Label>)
    requires Execute(build, ls).Some? && Execute(build, ls).value.centerStage.Serving?
    requires CenterPlay(build, Execute(build, ls).value, turns, handler).Some?
    requires c.State() == CenterConn(Execute(build, ls).value)
    requires var p := CenterPlay(build, Execute(build, ls).value, turns, handler).value;
             p.pending == [] && ReadAll(Center, c.inbound).envelopes == p.read
    modifies c
    ensures Execute(build, ls + labels).Some? && c.State() == CenterConn(Execute(build, ls + labels).value)
    ensures c.ackedSequence < Execute(build, ls + labels).value.site.next
    ensures StrictlyIncreasing(c.wire)
  {
    hide Execute, CenterPlay, DispatchAll;
    ghost var s := Execute(build, ls).value;
    ghost var p := CenterPlay(build, s, turns, handler).value;
    labels := p.labels;
    CenterLoopIsARun(build, ls, turns, handler);
    end := c.Run(handler);
    FinishNothing(CenterConn(p.s));
    SequencesAgree(build, ls + labels);
  }

  // ----- The site's loop -----

  function SiteConn(s: System): Conn {
    Conn(s.site, s.up.sent, s.siteHandled)
  }

  predicate IsSites(l: Label) {
    l.SiteHello? || l.SiteSends? || l.SiteReads? || l.SiteQuits?
  }

  lemma OthersLeaveTheSite(build: Build, s: System, l: Label)
    requires !IsSites(l) && Apply(build, s, l).Some?
    ensures SiteConn(Apply(build, s, l).value) == SiteConn(s) && Apply(build, s, l).value.siteStage == s.siteStage
  {
    hide Negotiate;
  }

  /** Where the site's loop is: also the ticks and arrivals so far, and whether a heartbeat failed. */
  datatype SitePlaying = SitePlaying(s: System, labels: seq<Label>, events: seq<SiteEvent>, pending: seq<Reply>,
                                     failed: Option<SendResult>)

  /** An envelope as it arrives. */
  function Arrival(e: Envelope): SiteEvent {
    Arrived(Got(Binary(EncodeFrame(e)), true))
  }

  function SiteTurn(build: Build, p: SitePlaying, turn: Turn, handler: Handler): Option<SitePlaying> {
    match turn
    case Others(l) =>
      if IsSites(l) || Apply(build, p.s, l).None? then None
      else Some(p.(s := Apply(build, p.s, l).value, labels := p.labels + [l]))
    case Beat(fate) =>
      var l := SiteSends(Heartbeat, fate);
      if p.pending != [] || p.failed.Some? || Apply(build, p.s, l).None? then None
      else
        var result := SendStep(p.s.site, Heartbeat, fate).result;
        Some(SitePlaying(Apply(build, p.s, l).value, p.labels + [l], p.events + [Tick(fate)], [],
                         if result.Sent? then None else Some(result)))
    case Own =>
      if p.failed.Some? then None
      else if p.pending != [] then
        var l := SiteSends(p.pending[0].message, p.pending[0].fate);
        if Apply(build, p.s, l).None? then None
        else Some(SitePlaying(Apply(build, p.s, l).value, p.labels + [l], p.events, p.pending[1..], None))
      else if p.s.down.inFlight != [] && Apply(build, p.s, SiteReads).Some? then
        var e := p.s.down.inFlight[0];
        Some(SitePlaying(Apply(build, p.s, SiteReads).value, p.labels + [SiteReads], p.events + [Arrival(e)],
                         handler(p.s.siteHandled, e), None))
      else None
  }

  function SitePlay(build: Build, s: System, turns: seq<Turn>, handler: Handler): Option<SitePlaying> {
    if turns == [] then Some(SitePlaying(s, [], [], [], None))
    else
      var before := SitePlay(build, s, turns[..|turns| - 1], handler);
      if before.None? then None else SiteTurn(build, before.value, turns[|turns| - 1], handler)
  }

  /** One more event of the site's loop, if it is still waiting for one. */
  function SiteEventStep(run: SiteRun, event: SiteEvent, handler: Handler): SiteRun {
    if run.end != ReadEnd(Waiting) then run else RunSite(run.conn, [event], handler)
  }

  lemma {:induction false} RunSiteSnoc(c: Conn, events: seq<SiteEvent>, event: SiteEvent, handler: Handler)
    requires event.Arrived? ==> SiteStep(event.read).Some? && SiteStep(event.read).value.NextEnvelope?
    requires forall x <- events | x.Arrived? :: SiteStep(x.read).Some? && SiteStep(x.read).value.NextEnvelope?
    ensures RunSite(c, events + [event], handler) == SiteEventStep(RunSite(c, events, handler), event, handler)
    decreases |events|
  {
    hide Dispatch, SiteStep, SendStep;
    if events == [] {
      assert events + [event] == [event];
    } else {
      var rest := events[1..];
      assert (events + [event])[1..] == rest + [event];
      match events[0] {
        case Tick(fate) =>
          var s := SendStep(c.counters, Heartbeat, fate);
          RunSiteSnoc(Conn(s.counters, c.wire + Wire(s.wire), c.handled), rest, event, handler);
        case Arrived(read) =>
          assert events[0] in events;
          RunSiteSnoc(Dispatch(c, SiteStep(read).value.envelope, handler), rest, event, handler);
      }
    }
  }

  lemma ArrivalIsRead(c: Conn, e: Envelope, handler: Handler)
    ensures SiteStep(Arrival(e).read) == Some(NextEnvelope(e))
    ensures RunSite(c, [Arrival(e)], handler) == SiteRun(Dispatch(c, e, handler), ReadEnd(Waiting))
  {
    hide Dispatch;
    DecodingUndoesEncoding(e);
    assert [Arrival(e)][1..] == [];
  }

  lemma BeatIsSent(c: Conn, fate: Fate, handler: Handler)
    ensures var s := SendStep(c.counters, Heartbeat, fate);
            RunSite(c, [Tick(fate)], handler)
            == SiteRun(Conn(s.counters, c.wire + Wire(s.wire), c.handled),
                       if s.result.Sent? then ReadEnd(Waiting) else HeartbeatFailed(s.result))
  {
    hide SendStep;
    assert [Tick(fate)][1..] == [];
  }

  ghost predicate AllReadable(events: seq<SiteEvent>) {
    forall x <- events | x.Arrived? :: SiteStep(x.read).Some? && SiteStep(x.read).value.NextEnvelope?
  }

  ghost predicate SiteInStep(build: Build, ls: seq<Label>, start: System, p: SitePlaying, handler: Handler) {
    && Execute(build, ls + p.labels) == Some(p.s) && p.s.siteStage.Established? && AllReadable(p.events)
    && (p.failed.Some? ==> p.pending == [])
    && RunSite(SiteConn(start), p.events, handler)
       == SiteRun(Finish(SiteConn(p.s), p.pending),
                  if p.failed.Some? then HeartbeatFailed(p.failed.value) else ReadEnd(Waiting))
  }

  lemma SiteSendsOne(s: System, message: EnvelopeMessage, fate: Fate)
    ensures var sending := SendStep(s.site, message, fate);
            SiteConn(SiteSend(s, message, fate))
            == Conn(sending.counters, s.up.sent + Wire(sending.wire), s.siteHandled)
  {
    assert s.up.sent + [] == s.up.sent;
  }

  lemma SiteTurnKeepsStep(build: Build, ls: seq<Label>, start: System, p: SitePlaying, turn: Turn, handler: Handler)
    requires SiteInStep(build, ls, start, p, handler) && SiteTurn(build, p, turn, handler).Some?
    ensures SiteInStep(build, ls, start, SiteTurn(build, p, turn, handler).value, handler)
  {
    hide Execute, SendStep, SendAll, RunSite, SiteStep, Negotiate, ReadAnswer, Arrival;
    var p' := SiteTurn(build, p, turn, handler).value;
    var l := p'.labels[|p.labels|];
    assert ls + p'.labels == ls + p.labels + [l];
    ExecuteSnoc(build, ls + p.labels, l);
    FinishNothing(SiteConn(p.s));
    FinishNothing(SiteConn(p'.s));
    match turn
    case Others(_) => OthersLeaveTheSite(build, p.s, l);
    case Beat(fate) =>
      RunSiteSnoc(SiteConn(start), p.events, Tick(fate), handler);
      BeatIsSent(SiteConn(p.s), fate, handler);
      SiteSendsOne(p.s, Heartbeat, fate);
    case Own =>
      if p.pending != [] {
        FinishOne(SiteConn(p.s), p.pending);
        SiteSendsOne(p.s, p.pending[0].message, p.pending[0].fate);
      } else {
        var e := p.s.down.inFlight[0];
        ArrivalIsRead(SiteConn(p.s), e, handler);
        RunSiteSnoc(SiteConn(start), p.events, Arrival(e), handler);
      }
  }

  /** The same for the site's loop, with its heartbeats. */
  lemma {:induction false} SiteLoopIsARun(build: Build, ls: seq<Label>, turns: seq<Turn>, handler: Handler)
    requires Execute(build, ls).Some? && Execute(build, ls).value.siteStage.Established?
    requires SitePlay(build, Execute(build, ls).value, turns, handler).Some?
    ensures var s := Execute(build, ls).value;
            SiteInStep(build, ls, s, SitePlay(build, s, turns, handler).value, handler)
  {
    var s := Execute(build, ls).value;
    if turns == [] {
      assert ls + [] == ls;
      FinishNothing(SiteConn(s));
    } else {
      hide SiteInStep, SiteTurn, Execute;
      SiteLoopIsARun(build, ls, turns[..|turns| - 1], handler);
      SiteTurnKeepsStep(build, ls, s, SitePlay(build, s, turns[..|turns| - 1], handler).value,
                        turns[|turns| - 1], handler);
    }
  }

  /** The site's frame loop run as part of a connection. */
  method SiteRunsInStep(c: SiteLink, build: Build, events: seq<SiteEvent>, ghost ls: seq<Label>, ghost turns: seq<Turn>,
                        handler: Handler)
    returns (end: SiteEnd, ghost labels: seq<Label>)
    requires Execute(build, ls).Some? && Execute(build, ls).value.siteStage.Established?
    requires SitePlay(build, Execute(build, ls).value, turns, handler).Some?
    requires c.State() == SiteConn(Execute(build, ls).value)
    requires var p := SitePlay(build, Execute(build, ls).value, turns, handler).value;
             p.pending == [] && p.events == events
    modifies c
    ensures Execute(build, ls + labels).Some? && c.State() == SiteConn(Execute(build, ls + labels).value)
    ensures c.ackedSequence < Execute(build, ls + labels).value.center.next
    ensures StrictlyIncreasing(c.wire)
  {
    hide Execute, SitePlay, RunSite;
    ghost var s := Execute(build, ls).value;
    ghost var p := SitePlay(build, s, turns, handler).value;
    labels := p.labels;
    SiteLoopIsARun(build, ls, turns, handler);
    end := c.Run(events, handler);
    FinishNothing(SiteConn(p.s));
    SequencesAgree(build, ls + labels);
  }

  // ----- The negotiation -----

  /** What the other end and the network do while this end is between two statements. */
  function AfterOthers(build: Build, s: System, others: seq<Label>): Option<System> {
    if others == [] then Some(s)
    else
      var before := AfterOthers(build, s, others[..|others| - 1]);
      if before.None? then None else Apply(build, before.value, others[|others| - 1])
  }

  lemma {:induction false} OthersRun(build: Build, ls: seq<Label>, others: seq<Label>)
    requires Execute(build, ls).Some?
    ensures Execute(build, ls + others) == AfterOthers(build, Execute(build, ls).value, others)
    decreases |others|
  {
    hide Apply, Execute;
    if others == [] {
      assert ls + others == ls;
    } else {
      var front, last := others[..|others| - 1], others[|others| - 1];
      OthersRun(build, ls, front);
      assert ls + others == ls + front + [last];
      ExecuteSnoc(build, ls + front, last);
    }
  }

  lemma {:induction false} OthersLeaveTheCenterAlone(build: Build, s: System, others: seq<Label>)
    requires (forall l <- others :: !IsCenters(l)) && AfterOthers(build, s, others).Some?
    ensures var s' := AfterOthers(build, s, others).value;
            CenterConn(s') == CenterConn(s) && s'.centerStage == s.centerStage
  {
    if others != [] {
      var front, l := others[..|others| - 1], others[|others| - 1];
      assert l in others && forall x <- front :: x in others;
      OthersLeaveTheCenterAlone(build, s, front);
      OthersLeaveTheCenter(build, AfterOthers(build, s, front).value, l);
    }
  }

  lemma {:induction false} OthersLeaveTheSiteAlone(build: Build, s: System, others: seq<Label>)
    requires (forall l <- others :: !IsSites(l)) && AfterOthers(build, s, others).Some?
    ensures var s' := AfterOthers(build, s, others).value;
            SiteConn(s') == SiteConn(s) && s'.siteStage == s.siteStage
  {
    if others != [] {
      var front, l := others[..|others| - 1], others[|others| - 1];
      assert l in others && forall x <- front :: x in others;
      OthersLeaveTheSiteAlone(build, s, front);
      OthersLeaveTheSite(build, AfterOthers(build, s, front).value, l);
    }
  }

  /** What the center's negotiation makes of its side of the machine. */
  lemma CenterNegotiates(build: Build, s: System, mid: System, hello: Hello, admission: Admission, fate: Fate)
    requires s.centerStage.AwaitingHello? && s.up.inFlight != []
    requires s.up.inFlight[0].message == Some(HelloMessage(hello))
    requires CenterConn(mid) == CenterConn(CenterRead(s)) && mid.centerStage == CenterRead(s).centerStage
    ensures CenterRead(s).centerStage == Deciding(hello)
    ensures var s', answer := CenterDecide(build, mid, admission, fate), Answer(Negotiate(build, hello), admission);
            var acked := s.center.(acked := s.up.inFlight[0].sequence);
            && s'.centerHandled == s.centerHandled
            && s'.decision == Some(Negotiate(build, hello))
            && (Negotiate(build, hello).Compatible? ==> s'.admission == Some(admission))
            && (answer.None? ==> s'.center == acked && s'.down.sent == s.down.sent && !s'.centerStage.Serving?)
            && (answer.Some? ==>
                  var sending := SendStep(acked, answer.value, fate);
                  && s'.center == sending.counters && s'.down.sent == s.down.sent + Wire(sending.wire)
                  && (s'.centerStage.Serving? <==>
                        Negotiate(build, hello).Compatible? && admission.Admitted? && sending.result.Sent?))
  {
    hide Negotiate, Answer;
    assert mid.down.sent + [] == mid.down.sent;
  }

  /** The center's negotiation run as part of a connection: the object is in step with the machine when it is
      over, it serves exactly if it accepted, and then the Hello was compatible and admitted. */
  method CenterNegotiatesInStep(c: CenterEnd, build: Build, hello: Hello, admission: Hello -> Admission, fate: Fate,
                                ghost ls: seq<Label>, ghost others: seq<Label>)
    returns (r: AcceptResult, ghost labels: seq<Label>)
    requires Execute(build, ls).Some? && c.State() == CenterConn(Execute(build, ls).value)
    requires var s := Execute(build, ls).value;
             && s.centerStage.AwaitingHello? && s.up.inFlight != []
             && s.up.inFlight[0].message == Some(HelloMessage(hello))
             && c.inbound != [] && c.inbound[0] == Arrival(s.up.inFlight[0]).read
             && (forall l <- others :: !IsCenters(l)) && AfterOthers(build, CenterRead(s), others).Some?
    modifies c
    ensures Execute(build, ls + labels).Some? && c.State() == CenterConn(Execute(build, ls + labels).value)
    ensures var s' := Execute(build, ls + labels).value;
            (r == Accepted <==> s'.centerStage.Serving?)
            && (r == Accepted ==> s'.decision == Some(Compatible) && s'.admission == Some(Admitted))
  {
    hide Execute, Negotiate, SendStep, AfterOthers, CenterDecide, CenterRead, Answer;
    ghost var s := Execute(build, ls).value;
    ghost var e := s.up.inFlight[0];
    DecodingUndoesEncoding(e);
    assert FirstRead(c.inbound) == GotHello(hello);
    ExecuteSnoc(build, ls, CenterReads);
    OthersRun(build, ls + [CenterReads], others);
    OthersLeaveTheCenterAlone(build, CenterRead(s), others);
    ghost var mid := AfterOthers(build, CenterRead(s), others).value;
    CenterNegotiates(build, s, mid, hello, admission(hello), fate);
    ghost var decides := CenterDecides(admission(hello), fate);
    ExecuteSnoc(build, ls + [CenterReads] + others, decides);
    labels := [CenterReads] + others + [decides];
    assert ls + labels == ls + [CenterReads] + others + [decides];
    r := c.CompleteNegotiation(build, admission, fate);
    AcceptanceMeans(build, hello, admission(hello));
    SendingKeepsAcked(s.center.(acked := e.sequence), Answer(Negotiate(build, hello), admission(hello)), fate);
    assert c.wire + [] == c.wire;
  }

  lemma SendingKeepsAcked(c: Counters, message: Option<EnvelopeMessage>, fate: Fate)
    ensures message.Some? ==> SendStep(c, message.value, fate).counters.acked == c.acked
  {
  }

  lemma AcceptanceMeans(build: Build, hello: Hello, admission: Admission)
    ensures Negotiate(build, hello).Compatible? && admission.Admitted? ==>
              Answer(Negotiate(build, hello), admission).Some?
    ensures Answer(Negotiate(build, hello), admission).None? <==>
              Negotiate(build, hello).Compatible? && admission.LookupFailed?
  {
  }

  /** The site's negotiation run as part of a connection: the object is in step with the machine when it is
      over, and it has a link exactly if it is established there, so only if the center found its Hello
      compatible and admitted it. */
  method SiteNegotiatesInStep(c: SiteLink, build: Build, hello: Hello, ghost ls: seq<Label>, ghost others: seq<Label>)
    returns (r: LinkResult, ghost labels: seq<Label>)
    requires Execute(build, ls).Some? && c.State() == SiteConn(Execute(build, ls).value)
    requires var s := Execute(build, ls).value;
             && s.siteStage.NotStarted? && s.site.next < U64_MAX && forall l <- others :: !IsSites(l)
    requires var sent := SiteSend(Execute(build, ls).value, HelloMessage(hello), Delivered);
             var greeted := sent.(siteStage := AwaitingResult);
             var mid := AfterOthers(build, greeted, others);
             && mid.Some? && mid.value.down.inFlight != []
             && c.inbound != [] && c.inbound[0] == Arrival(mid.value.down.inFlight[0]).read
    modifies c
    ensures Execute(build, ls + labels).Some? && c.State() == SiteConn(Execute(build, ls + labels).value)
    ensures r == Link <==> Execute(build, ls + labels).value.siteStage.Established?
    ensures r == Link ==>
              && Execute(build, ls + labels).value.decision == Some(Compatible)
              && Execute(build, ls + labels).value.admission == Some(Admitted)
  {
    hide Execute, Negotiate, AfterOthers;
    ghost var s := Execute(build, ls).value;
    ghost var greeted := SiteSend(s, HelloMessage(hello), Delivered).(siteStage := AwaitingResult);
    ghost var says := SiteHello(hello, Delivered);
    ExecuteSnoc(build, ls, says);
    OthersRun(build, ls + [says], others);
    OthersLeaveTheSiteAlone(build, greeted, others);
    ghost var mid := AfterOthers(build, greeted, others).value;
    ghost var e := mid.down.inFlight[0];
    ExecuteSnoc(build, ls + [says] + others, SiteReads);
    labels := [says] + others + [SiteReads];
    assert ls + labels == ls + [says] + others + [SiteReads];
    DecodingUndoesEncoding(e);
    FirstArrivalIsRead(c.inbound, e);
    FirstAnswerIsOne(build, ls + [says] + others);
    r := c.CompleteNegotiation(hello, Delivered);
    NegotiationAgreement(build, ls + labels);
  }

  lemma FirstArrivalIsRead(stream: seq<Read>, e: Envelope)
    requires stream != [] && stream[0] == Arrival(e).read
    ensures ReadAll(Site, stream).envelopes != [] && ReadAll(Site, stream).envelopes[0] == e
  {
    DecodingUndoesEncoding(e);
  }

  /** The first envelope a waiting site finds is an answer. */
  lemma FirstAnswerIsOne(build: Build, ls: seq<Label>)
    requires Execute(build, ls).Some? && Execute(build, ls).value.siteStage.AwaitingResult?
    requires Execute(build, ls).value.down.inFlight != []
    ensures ReadAnswer(Execute(build, ls).value.down.inFlight[0].message) != NoResult
  {
    hide Execute, Negotiate;
    EveryRunKeepsInvariant(build, ls);
    var s := Execute(build, ls).value;
    TakeKeepsChannel(s.center, s.site, s.down);
    AnswersAreUnderstood(s.decision.value, if s.admission.Some? then s.admission.value else LookupFailed);
  }
}
