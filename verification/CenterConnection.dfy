/** The two ends of the site-to-center connection: per-connection sequence and acknowledgement
    counters, the negotiation with its admission decision, and the frame loops. */
module CenterConnection {
  import opened Wrappers

  import opened CenterWire

  const U64_MAX: nat := 0xFFFF_FFFF_FFFF_FFFF

  type Sequence = n: nat | n <= U64_MAX

  // ----- Counters -----

  datatype Counters = Counters(next: Sequence, acked: nat)

  const FRESH_COUNTERS := Counters(1, 0)

  /** What becomes of one send once it has a sequence: delivered to the transport, refused by the
      encoder, or failed in the transport before or after the frame got out. */
  datatype Fate = Delivered | EncodeRefused | TransportFailed(escaped: bool)

  datatype SendResult = Sent | SequenceOverflow | FrameRefused | TransportError

  /** The effect of `send`: the counters after it, its result, and the envelope that got out. */
  datatype Sending = Sending(counters: Counters, result: SendResult, wire: Option<Envelope>)

  function SendStep(c: Counters, message: EnvelopeMessage, fate: Fate): Sending {
    var envelope := Envelope(c.next, c.acked, Some(message));
    if c.next == U64_MAX then Sending(c, SequenceOverflow, None)
    else
      var c' := c.(next := c.next + 1);
      match fate
      case Delivered => Sending(c', Sent, Some(envelope))
      case EncodeRefused => Sending(c', FrameRefused, None)
      case TransportFailed(escaped) => Sending(c', TransportError, if escaped then Some(envelope) else None)
  }

  /** A send takes its number whatever becomes of it, tells what became of it, and what gets out is the message
      under that number with the acknowledgement of the time. */
  lemma SendTells(c: Counters, message: EnvelopeMessage, fate: Fate)
    ensures var s := SendStep(c, message, fate);
            && (s.result.SequenceOverflow? <==> c.next == U64_MAX)
            && s.counters == (if c.next == U64_MAX then c else Counters(c.next + 1, c.acked))
            && (c.next < U64_MAX ==>
                  && (s.result.Sent? <==> fate.Delivered?) && (s.result.FrameRefused? <==> fate.EncodeRefused?)
                  && (s.wire.Some? <==> fate == Delivered || fate == TransportFailed(true)))
            && (s.wire.Some? ==> c.next < U64_MAX && s.wire.value == Envelope(c.next, c.acked, Some(message)))
  {
  }

  function Wire(o: Option<Envelope>): seq<Envelope> {
    if o.Some? then [o.value] else []
  }

  datatype Reply = Reply(message: EnvelopeMessage, fate: Fate)

  /** Several sends in a row, whatever becomes of each. */
  function SendAll(c: Counters, replies: seq<Reply>): (Counters, seq<Envelope>)
    decreases |replies|
  {
    if replies == [] then (c, [])
    else
      var s := SendStep(c, replies[0].message, replies[0].fate);
      var (c', rest) := SendAll(s.counters, replies[1..]);
      (c', Wire(s.wire) + rest)
  }

  ghost predicate StrictlyIncreasing(es: seq<Envelope>) {
    forall i, j | 0 <= i < j < |es| :: es[i].sequence < es[j].sequence
  }

  /** However many sends succeed or fail, the envelopes that get out carry strictly increasing
      sequences from the counter on, and never the largest u64: the counter stops, it never wraps. */
  lemma {:induction false} SentSequencesIncrease(c: Counters, replies: seq<Reply>)
    ensures var (c', out) := SendAll(c, replies);
            && StrictlyIncreasing(out) && c.next <= c'.next && c'.acked == c.acked
            && (forall e | e in out :: c.next <= e.sequence < c'.next && e.ackedSequence == c.acked)
    decreases |replies|
  {
    if replies != [] {
      var s := SendStep(c, replies[0].message, replies[0].fate);
      SentSequencesIncrease(s.counters, replies[1..]);
      var rest := SendAll(s.counters, replies[1..]).1;
      assert SendAll(c, replies).1 == Wire(s.wire) + rest;
      assert s.wire.Some? ==> s.wire.value.sequence == c.next && s.counters.next == c.next + 1;
    }
  }

  /** When every send is delivered, the sequences are contiguous from the counter on; the one that
      finds the counter at its largest value, and every later one, sends nothing. */
  lemma {:induction false} DeliveredSequencesAreContiguous(c: Counters, replies: seq<Reply>)
    requires forall r | r in replies :: r.fate.Delivered?
    ensures var (c', out) := SendAll(c, replies);
            && |out| == (if |replies| <= U64_MAX - c.next then |replies| else U64_MAX - c.next)
            && c'.next == c.next + |out|
            && (forall i | 0 <= i < |out| ::
                  out[i].sequence == c.next + i && out[i].message == Some(replies[i].message))
    decreases |replies|
  {
    if replies != [] {
      assert replies[0] in replies;
      DeliveredSequencesAreContiguous(SendStep(c, replies[0].message, replies[0].fate).counters, replies[1..]);
    }
  }

  // ----- Negotiation and admission -----

  /** What a build negotiates with. */
  datatype Build = Build(protocolVersion: nat, baseline: string, ledgerHash: seq<nat>)

  datatype Mismatch = ProtocolMismatch | BaselineMismatch | LedgerMismatch

  datatype Decision = Compatible | Incompatible(reason: Mismatch)

  function Negotiate(build: Build, hello: Hello): Decision {
    if hello.protocolVersion != build.protocolVersion then Incompatible(ProtocolMismatch)
    else if hello.baseline != build.baseline then Incompatible(BaselineMismatch)
    else if hello.ledgerHash != build.ledgerHash then Incompatible(LedgerMismatch)
    else Compatible
  }

  /** The Hello is of a build with the same protocol, baseline and capabilities. */
  predicate Agrees(build: Build, hello: Hello) {
    && hello.protocolVersion == build.protocolVersion && hello.baseline == build.baseline
    && hello.ledgerHash == build.ledgerHash
  }

  lemma CompatibleMeansAgreed(build: Build, hello: Hello)
    ensures Negotiate(build, hello).Compatible? <==> Agrees(build, hello)
  {
  }

  datatype Admission = Admitted | RefusedIdentityMismatch | RefusedOtherwise | LookupFailed

  function MismatchCode(reason: Mismatch): string {
    match reason
    case ProtocolMismatch => "protocol-mismatch"
    case BaselineMismatch => "baseline-mismatch"
    case LedgerMismatch => "ledger-mismatch"
  }

  const NOT_BOUND := "not-bound"
  const IDENTITY_MISMATCH := "identity-mismatch"

  /** The center's answer to a Hello; None when it gives no answer at all. */
  function Answer(decision: Decision, admission: Admission): Option<EnvelopeMessage> {
    match decision
    case Incompatible(reason) => Some(NegotiationResult(false, MismatchCode(reason)))
    case Compatible =>
      match admission
      case Admitted => Some(NegotiationResult(true, ""))
      case RefusedIdentityMismatch => Some(NegotiationResult(false, IDENTITY_MISMATCH))
      case RefusedOtherwise => Some(NegotiationResult(false, NOT_BOUND))
      case LookupFailed => None
  }

  datatype SiteVerdict = Linked | NotBound | IdentityMismatch | Rejected(reason: string) | NoResult

  /** What the site makes of the first envelope it reads after its Hello. */
  function ReadAnswer(message: Option<EnvelopeMessage>): SiteVerdict {
    if message.None? || !message.value.NegotiationResult? then NoResult
    else if message.value.accepted then Linked
    else if message.value.reason == NOT_BOUND then NotBound
    else if message.value.reason == IDENTITY_MISMATCH then IdentityMismatch
    else Rejected(message.value.reason)
  }

  /** Whatever is read: only an acceptance links, a refusal is told by its two codes, and what is not an answer
      is none. */
  lemma AnswerTellsExactly(message: Option<EnvelopeMessage>)
    ensures ReadAnswer(message) == Linked <==> exists reason :: message == Some(NegotiationResult(true, reason))
    ensures ReadAnswer(message) == NotBound <==> message == Some(NegotiationResult(false, "not-bound"))
    ensures ReadAnswer(message) == IdentityMismatch <==> message == Some(NegotiationResult(false, "identity-mismatch"))
    ensures forall reason :: ReadAnswer(message) == Rejected(reason) <==>
                               && message == Some(NegotiationResult(false, reason))
                               && reason != "not-bound" && reason != "identity-mismatch"
    ensures ReadAnswer(message) == NoResult <==> message.None? || !message.value.NegotiationResult?
  {
    assert "not-bound"[0] == 'n' && "identity-mismatch"[0] == 'i';
    if ReadAnswer(message) == Linked {
      assert message == Some(NegotiationResult(true, message.value.reason));
    }
  }

  lemma CodesDiffer(reason: Mismatch)
    ensures MismatchCode(reason) != NOT_BOUND && MismatchCode(reason) != IDENTITY_MISMATCH
    ensures NOT_BOUND != IDENTITY_MISMATCH
  {
    assert "protocol-mismatch"[0] == 'p' && "baseline-mismatch"[0] == 'b' && "ledger-mismatch"[0] == 'l';
    assert "not-bound"[0] == 'n' && "identity-mismatch"[0] == 'i';
  }

  /** An answer means to the site what the center decided, for every decision. */
  lemma AnswersAreUnderstood(decision: Decision, admission: Admission)
    requires Answer(decision, admission).Some?
    ensures var v := ReadAnswer(Answer(decision, admission));
            && (v == Linked <==> decision.Compatible? && admission.Admitted?)
            && (v == NotBound <==> decision.Compatible? && admission.RefusedOtherwise?)
            && (v == IdentityMismatch <==> decision.Compatible? && admission.RefusedIdentityMismatch?)
            && (v.Rejected? <==> decision.Incompatible?)
            && (decision.Incompatible? ==> v == Rejected(MismatchCode(decision.reason)))
            && v != NoResult
  {
    if decision.Incompatible? {
      CodesDiffer(decision.reason);
    } else {
      CodesDiffer(ProtocolMismatch);
    }
  }

  /** From the Hello to what the site learns: the first of the three fields that differs, and only that one. */
  lemma SiteLearnsTheFirstMismatch(build: Build, hello: Hello, admission: Admission)
    requires Answer(Negotiate(build, hello), admission).Some?
    ensures var v := ReadAnswer(Answer(Negotiate(build, hello), admission));
            && (v == Rejected("protocol-mismatch") <==> hello.protocolVersion != build.protocolVersion)
            && (v == Rejected("baseline-mismatch") <==>
                  hello.protocolVersion == build.protocolVersion && hello.baseline != build.baseline)
            && (v == Rejected("ledger-mismatch") <==>
                  && hello.protocolVersion == build.protocolVersion && hello.baseline == build.baseline
                  && hello.ledgerHash != build.ledgerHash)
            && (v.Rejected? <==> !Agrees(build, hello))
            && (v == Linked <==> Agrees(build, hello) && admission.Admitted?)
  {
    AnswersAreUnderstood(Negotiate(build, hello), admission);
    assert "protocol-mismatch"[0] == 'p' && "baseline-mismatch"[0] == 'b' && "ledger-mismatch"[0] == 'l';
  }

  datatype HelloResult = GotHello(hello: Hello) | ExpectedHello | HelloClosed | HelloViolation | HelloFrameError
                       | HelloTransport | HelloTimeout | HelloPending

  /** The first read of a connection must be a Hello: even a ping in its place is refused. */
  function FirstRead(stream: seq<Read>): HelloResult {
    if stream == [] then HelloPending
    else match stream[0]
    case Got(m, _) => (
      match InboundFrame(m)
      case EnvelopeFrame(e) =>
        if e.message.Some? && e.message.value.HelloMessage? then GotHello(e.message.value.hello) else ExpectedHello
      case Control => ExpectedHello
      case Closed => HelloClosed
      case ProtocolViolation => HelloViolation
      case FrameError => HelloFrameError)
    case StreamEnded => HelloClosed
    case ConnectionLost => HelloTransport
    case ReadFailed => HelloTransport
    case Silence => HelloTimeout
  }

  /** What the first read has to be for each result. */
  ghost predicate HelloEarned(r: Read, result: HelloResult) {
    match result
    case GotHello(hello) => IsEnvelope(r) && r.message.payload.envelope.message == Some(HelloMessage(hello))
    case ExpectedHello =>
      || IsControl(r)
      || (IsEnvelope(r) && forall hello :: r.message.payload.envelope.message != Some(HelloMessage(hello)))
    case HelloClosed => (r.Got? && r.message.Close?) || r.StreamEnded?
    case HelloViolation => r.Got? && (r.message.Text? || r.message.Raw?)
    case HelloFrameError => r.Got? && r.message.Binary? && r.message.payload.Garbage?
    case HelloTransport => r.ConnectionLost? || r.ReadFailed?
    case HelloTimeout => r.Silence?
    case HelloPending => false
  }

  /** The first read alone decides: a Hello is taken from an envelope that carries one, and everything else
      is refused for what it is. */
  lemma FirstReadTellsExactly(stream: seq<Read>, result: HelloResult)
    requires stream != []
    ensures FirstRead(stream) == result <==> HelloEarned(stream[0], result)
  {
    var r := stream[0];
    if IsEnvelope(r) && FirstRead(stream).GotHello? {
      var hello := FirstRead(stream).hello;
      assert r.message.payload.envelope.message == Some(HelloMessage(hello));
    }
  }

  /** The first read is not transparent to control messages: removing them changes what it makes of the
      stream exactly when a ping or pong comes first and what follows is not refused in the same way. */
  lemma FirstReadSeesControl(stream: seq<Read>)
    ensures FirstRead(stream) == FirstRead(WithoutControl(stream)) <==>
            || stream == [] || !IsControl(stream[0]) || FirstRead(WithoutControl(stream)).ExpectedHello?
  {
    if stream != [] && !IsControl(stream[0]) {
      assert WithoutControl(stream)[0] == stream[0];
    }
  }

  /** So a Hello behind a ping is refused. */
  lemma PingBeforeHelloIsRefused(hello: Hello, sequence: nat)
    ensures var greeting := Got(Binary(EncodeFrame(Envelope(sequence, 0, Some(HelloMessage(hello))))), true);
            && FirstRead([greeting]) == GotHello(hello)
            && FirstRead([Got(Ping, true), greeting]) == ExpectedHello
  {
    DecodingUndoesEncoding(Envelope(sequence, 0, Some(HelloMessage(hello))));
  }

  datatype AcceptResult =
    | Accepted
    | NoHello(first: HelloResult)
    | ReplyFailed(why: SendResult)
    | NegotiationRejected(reason: Mismatch)
    | AdmissionRejected(admission: Admission)
    | AdmissionLookup

  // ----- The frame loops as functions: each envelope is acknowledged, dispatched and answered -----

  /** What a handler answers to an envelope, given all it was handed before: its state is what it has seen. */
  type Handler = (seq<Envelope>, Envelope) -> seq<Reply>

  datatype Conn = Conn(counters: Counters, wire: seq<Envelope>, handled: seq<Envelope>)

  /** Dispatches one envelope: the counter of received sequences first, then the handler, whose
      replies go out in order. */
  function Dispatch(c: Conn, e: Envelope, handler: Handler): Conn {
    var (counters, out) := SendAll(c.counters.(acked := e.sequence), handler(c.handled, e));
    Conn(counters, c.wire + out, c.handled + [e])
  }

  /** Every reply to an envelope acknowledges that envelope, with the next sequences. */
  lemma RepliesAcknowledge(c: Conn, e: Envelope, handler: Handler)
    ensures var after := Dispatch(c, e, handler);
            && c.wire <= after.wire && after.counters.acked == e.sequence
            && StrictlyIncreasing(after.wire[|c.wire|..])
            && forall reply | reply in after.wire[|c.wire|..] ::
                 reply.ackedSequence == e.sequence && c.counters.next <= reply.sequence < after.counters.next
  {
    var replies := handler(c.handled, e);
    SentSequencesIncrease(c.counters.(acked := e.sequence), replies);
    var after := Dispatch(c, e, handler);
    assert after.wire[|c.wire|..] == SendAll(c.counters.(acked := e.sequence), replies).1;
  }

  function DispatchAll(c: Conn, es: seq<Envelope>, handler: Handler): Conn
    decreases |es|
  {
    if es == [] then c else DispatchAll(Dispatch(c, es[0], handler), es[1..], handler)
  }

  lemma {:induction false} DispatchedIsHandled(c: Conn, es: seq<Envelope>, handler: Handler)
    ensures DispatchAll(c, es, handler).handled == c.handled + es
    ensures DispatchAll(c, es, handler).counters.acked == if es == [] then c.counters.acked else es[|es| - 1].sequence
    decreases |es|
  {
    if es != [] {
      DispatchedIsHandled(Dispatch(c, es[0], handler), es[1..], handler);
      SentSequencesIncrease(c.counters.(acked := es[0].sequence), handler(c.handled, es[0]));
    }
  }

  /** What the site's frame loop sees: its heartbeat ticks interleaved with its reads. */
  datatype SiteEvent = Tick(fate: Fate) | Arrived(read: Read)

  datatype SiteEnd = ReadEnd(end: End) | HeartbeatFailed(why: SendResult)

  datatype SiteRun = SiteRun(conn: Conn, end: SiteEnd)

  function RunSite(c: Conn, events: seq<SiteEvent>, handler: Handler): SiteRun
    decreases |events|
  {
    if events == [] then SiteRun(c, ReadEnd(Waiting))
    else match events[0]
    case Tick(fate) =>
      var s := SendStep(c.counters, Heartbeat, fate);
      var c' := Conn(s.counters, c.wire + Wire(s.wire), c.handled);
      if s.result.Sent? then RunSite(c', events[1..], handler) else SiteRun(c', HeartbeatFailed(s.result))
    case Arrived(read) =>
      var next := SiteStep(read);
      if next.None? then RunSite(c, events[1..], handler)
      else if next.value.NoMore? then SiteRun(c, ReadEnd(next.value.end))
      else RunSite(Dispatch(c, next.value.envelope, handler), events[1..], handler)
  }

  function ReadsOf(events: seq<SiteEvent>): seq<Read> {
    if events == [] then []
    else (if events[0].Arrived? then [events[0].read] else []) + ReadsOf(events[1..])
  }

  /** Heartbeats do not disturb what the site's loop dispatches: unless one fails, the handler sees
      exactly the envelopes of the reads alone, and the loop ends as the reads alone end. */
  lemma {:induction false} HeartbeatsAreTransparent(c: Conn, events: seq<SiteEvent>, handler: Handler)
    ensures var run, frames := RunSite(c, events, handler), ReadAll(Site, ReadsOf(events));
            && (run.end.ReadEnd? ==> run.conn.handled == c.handled + frames.envelopes && run.end.end == frames.end)
            && (run.end.HeartbeatFailed? ==> run.conn.handled <= c.handled + frames.envelopes)
    decreases |events|
  {
    if events != [] {
      var rest := events[1..];
      match events[0] {
        case Tick(fate) =>
          var s := SendStep(c.counters, Heartbeat, fate);
          HeartbeatsAreTransparent(Conn(s.counters, c.wire + Wire(s.wire), c.handled), rest, handler);
          assert ReadsOf(events) == ReadsOf(rest);
        case Arrived(read) =>
          assert ReadsOf(events)[0] == read && ReadsOf(events)[1..] == ReadsOf(rest);
          if SiteStep(read).None? {
            HeartbeatsAreTransparent(c, rest, handler);
          } else if SiteStep(read).value.NextEnvelope? {
            HeartbeatsAreTransparent(Dispatch(c, SiteStep(read).value.envelope, handler), rest, handler);
          }
      }
    }
  }

  /** How many events come before the first read that ends the reading. */
  function EventReach(events: seq<SiteEvent>): (n: nat)
    ensures n <= |events|
  {
    if events == [] || (events[0].Arrived? && !GoesOn(Site, events[0].read)) then 0 else 1 + EventReach(events[1..])
  }

  /** Why a heartbeat was not sent, by what became of it. */
  predicate HeartbeatLost(event: SiteEvent, why: SendResult) {
    && event.Tick?
    && match why
       case Sent => false
       case SequenceOverflow => true
       case FrameRefused => event.fate.EncodeRefused?
       case TransportError => event.fate.TransportFailed?
  }

  /** A heartbeat that does not go out ends the loop, and the loop says why; when reading ends it, every
      heartbeat before that went out. */
  lemma {:induction false} LostHeartbeatEndsTheLoop(c: Conn, events: seq<SiteEvent>, handler: Handler)
    ensures match RunSite(c, events, handler).end
            case ReadEnd(_) => forall k | 0 <= k < EventReach(events) :: events[k].Tick? ==> events[k].fate.Delivered?
            case HeartbeatFailed(why) => exists k | 0 <= k < EventReach(events) :: HeartbeatLost(events[k], why)
    decreases |events|
  {
    hide SendAll;
    if events != [] {
      var rest := events[1..];
      match events[0] {
        case Tick(fate) =>
          var s := SendStep(c.counters, Heartbeat, fate);
          if s.result.Sent? {
            LostHeartbeatEndsTheLoop(Conn(s.counters, c.wire + Wire(s.wire), c.handled), rest, handler);
            LaterEvent(events, RunSite(c, events, handler).end);
          } else {
            assert HeartbeatLost(events[0], s.result);
          }
        case Arrived(read) =>
          EarnedOnce(Site, read);
          if SiteStep(read).None? {
            LostHeartbeatEndsTheLoop(c, rest, handler);
            LaterEvent(events, RunSite(c, events, handler).end);
          } else if SiteStep(read).value.NextEnvelope? {
            LostHeartbeatEndsTheLoop(Dispatch(c, SiteStep(read).value.envelope, handler), rest, handler);
            LaterEvent(events, RunSite(c, events, handler).end);
          }
      }
    }
  }

  lemma LaterEvent(events: seq<SiteEvent>, end: SiteEnd)
    requires events != [] && EventReach(events) > 0
    ensures end.HeartbeatFailed?
            && (exists k | 0 <= k < EventReach(events[1..]) :: HeartbeatLost(events[1..][k], end.why)) ==>
              exists k | 0 <= k < EventReach(events) :: HeartbeatLost(events[k], end.why)
    ensures (forall k | 0 <= k < EventReach(events[1..]) :: events[1..][k].Tick? ==> events[1..][k].fate.Delivered?) ==>
              forall k | 1 <= k < EventReach(events) :: events[k].Tick? ==> events[k].fate.Delivered?
  {
    assert forall k | 1 <= k < EventReach(events) :: events[k] == events[1..][k - 1];
    if end.HeartbeatFailed? && exists k | 0 <= k < EventReach(events[1..]) :: HeartbeatLost(events[1..][k], end.why) {
      var k :| 0 <= k < EventReach(events[1..]) && HeartbeatLost(events[1..][k], end.why);
      assert HeartbeatLost(events[k + 1], end.why);
    }
  }

  // ----- The two connection objects -----

  class CenterEnd {
    var nextSequence: Sequence
    var ackedSequence: nat
    var inbound: seq<Read>
    var wire: seq<Envelope>       // what this end has put on the wire
    var handled: seq<Envelope>    // what its handler has been given

    function State(): Conn
      reads this
    {
      Conn(Counters(nextSequence, ackedSequence), wire, handled)
    }

    constructor (inbound: seq<Read>)
      ensures State() == Conn(FRESH_COUNTERS, [], []) && this.inbound == inbound
    {
      nextSequence, ackedSequence, wire, handled := 1, 0, [], [];
      this.inbound := inbound;
    }

    method Send(message: EnvelopeMessage, fate: Fate) returns (r: SendResult)
      modifies `nextSequence, `wire
      ensures var s := SendStep(old(State()).counters, message, fate);
              r == s.result && State() == Conn(s.counters, old(wire) + Wire(s.wire), old(handled))
    {
      var envelope := Envelope(nextSequence, ackedSequence, Some(message));
      if nextSequence == U64_MAX {
        return SequenceOverflow;
      }
      nextSequence := nextSequence + 1;
      match fate {
        case Delivered => wire := wire + [envelope]; r := Sent;
        case EncodeRefused => r := FrameRefused;
        case TransportFailed(escaped) =>
          if escaped { wire := wire + [envelope]; }
          r := TransportError;
      }
    }

    /** The next envelope for an engine that drives the connection itself; its sequence is
        recorded. */
    method ReceiveEnvelope() returns (next: Next)
      modifies `ackedSequence, `inbound
      ensures next.NextEnvelope? ==>
                && ReadAll(Center, old(inbound)).envelopes == [next.envelope] + ReadAll(Center, inbound).envelopes
                && State() == old(State()).(counters := old(State().counters).(acked := next.envelope.sequence))
      ensures next.NoMore? ==> ReadAll(Center, old(inbound)) == Frames([], next.end) && State() == old(State())
    {
      next, inbound := ReadNext(Center, inbound);
      if next.NextEnvelope? {
        ackedSequence := next.envelope.sequence;
      }
    }

    method HandleReplies(replies: seq<Reply>)
      modifies `nextSequence, `wire
      ensures var (c, out) := SendAll(old(State()).counters, replies);
              State() == Conn(c, old(wire) + out, old(handled))
    {
      for i := 0 to |replies|
        invariant handled == old(handled)
        invariant SendAll(old(State()).counters, replies).0 == SendAll(State().counters, replies[i..]).0
        invariant old(wire) + SendAll(old(State()).counters, replies).1
               == wire + SendAll(State().counters, replies[i..]).1
      {
        assert replies[i..][0] == replies[i] && replies[i..][1..] == replies[i + 1..];
        var _ := Send(replies[i].message, replies[i].fate);
      }
    }

    /** The frame loop: reads until the connection ends, recording and dispatching each envelope. */
    method Run(handler: Handler) returns (end: End)
      modifies this
      ensures var frames := ReadAll(Center, old(inbound));
              State() == DispatchAll(old(State()), frames.envelopes, handler) && end == frames.end
      ensures EndsAs(Center, old(inbound), end)
      ensures handled == old(handled) + EnvelopesIn(old(inbound)[..Reach(Center, old(inbound))])
    {
      ReadsToTheFirstEnd(Center, inbound);
      DispatchedIsHandled(State(), ReadAll(Center, inbound).envelopes, handler);
      while true
        invariant DispatchAll(old(State()), ReadAll(Center, old(inbound)).envelopes, handler)
               == DispatchAll(State(), ReadAll(Center, inbound).envelopes, handler)
        invariant ReadAll(Center, old(inbound)).end == ReadAll(Center, inbound).end
        decreases |inbound|
      {
        var next, rest := ReadNext(Center, inbound);
        if next.NoMore? {
          return next.end;
        }
        inbound := rest;
        ackedSequence := next.envelope.sequence;
        var replies := handler(handled, next.envelope);
        handled := handled + [next.envelope];
        HandleReplies(replies);
      }
    }

    /** Receives the first frame and validates it as a Hello, recording its sequence. */
    method ReceiveHello() returns (r: HelloResult)
      modifies `ackedSequence, `inbound
      ensures r == FirstRead(old(inbound))
      ensures r.GotHello? ==>
                && old(inbound)[0].Got? && old(inbound)[0].message.Binary? && old(inbound)[0].message.payload.Frame?
                && ackedSequence == old(inbound)[0].message.payload.envelope.sequence
                && inbound == old(inbound)[1..]
      ensures !r.GotHello? ==> ackedSequence == old(ackedSequence)
    {
      r := FirstRead(inbound);
      if r.GotHello? {
        ackedSequence := inbound[0].message.payload.envelope.sequence;
      }
      if inbound != [] {
        inbound := inbound[1..];
      }
    }

    /** The negotiation under the admission decision. An acceptance must go out; a refusal is
        answered as well as the transport allows; a failed lookup is not answered. */
    method CompleteNegotiation(build: Build, admission: Hello -> Admission, fate: Fate) returns (r: AcceptResult)
      modifies `nextSequence, `ackedSequence, `inbound, `wire
      ensures var first := FirstRead(old(inbound));
              if !first.GotHello? then r == NoHello(first) && wire == old(wire)
              else
                var decision, admitted := Negotiate(build, first.hello), admission(first.hello);
                var answer := Answer(decision, admitted);
                && (answer.None? ==> r == AdmissionLookup && wire == old(wire) && nextSequence == old(nextSequence))
                && (answer.Some? ==>
                      var s := SendStep(Counters(old(nextSequence), ackedSequence), answer.value, fate);
                      && wire == old(wire) + Wire(s.wire) && nextSequence == s.counters.next
                      && (r == Accepted <==> decision.Compatible? && admitted.Admitted? && s.result.Sent?)
                      && (r.ReplyFailed? <==> decision.Compatible? && admitted.Admitted? && !s.result.Sent?)
                      && (r == AdmissionRejected(admitted) <==>
                            decision.Compatible? && (admitted.RefusedIdentityMismatch? || admitted.RefusedOtherwise?))
                      && (decision.Incompatible? ==> r == NegotiationRejected(decision.reason)))
                && (r == Accepted ==> Agrees(build, first.hello))
                && (!Agrees(build, first.hello) ==> r.NegotiationRejected?)
      ensures handled == old(handled)
      ensures ackedSequence == if FirstRead(old(inbound)).GotHello? then
                                 old(inbound)[0].message.payload.envelope.sequence
                               else old(ackedSequence)
    {
      var first := ReceiveHello();
      if !first.GotHello? {
        return NoHello(first);
      }
      var sent;
      match Negotiate(build, first.hello) {
        case Compatible =>
          match admission(first.hello) {
            case Admitted =>
              sent := Send(NegotiationResult(true, ""), fate);
              return if sent.Sent? then Accepted else ReplyFailed(sent);
            case RefusedIdentityMismatch =>
              sent := Send(NegotiationResult(false, IDENTITY_MISMATCH), fate);
              return AdmissionRejected(RefusedIdentityMismatch);
            case RefusedOtherwise =>
              sent := Send(NegotiationResult(false, NOT_BOUND), fate);
              return AdmissionRejected(RefusedOtherwise);
            case LookupFailed => return AdmissionLookup;
          }
        case Incompatible(reason) =>
          sent := Send(NegotiationResult(false, MismatchCode(reason)), fate);
          return NegotiationRejected(reason);
      }
    }
  }

  datatype LinkResult = Link | HelloNotSent(why: SendResult) | NoAnswer(end: End) | Refused(verdict: SiteVerdict)

  class SiteLink {
    var nextSequence: Sequence
    var ackedSequence: nat
    var inbound: seq<Read>
    var wire: seq<Envelope>
    var handled: seq<Envelope>

    function State(): Conn
      reads this
    {
      Conn(Counters(nextSequence, ackedSequence), wire, handled)
    }

    constructor (inbound: seq<Read>)
      ensures State() == Conn(FRESH_COUNTERS, [], []) && this.inbound == inbound
    {
      nextSequence, ackedSequence, wire, handled := 1, 0, [], [];
      this.inbound := inbound;
    }

    method Send(message: EnvelopeMessage, fate: Fate) returns (r: SendResult)
      modifies `nextSequence, `wire
      ensures var s := SendStep(old(State()).counters, message, fate);
              r == s.result && State() == Conn(s.counters, old(wire) + Wire(s.wire), old(handled))
    {
      var envelope := Envelope(nextSequence, ackedSequence, Some(message));
      if nextSequence == U64_MAX {
        return SequenceOverflow;
      }
      nextSequence := nextSequence + 1;
      if fate.EncodeRefused? {
        return FrameRefused;
      }
      if fate.Delivered? || fate.escaped {
        wire := wire + [envelope];
      }
      return if fate.Delivered? then Sent else TransportError;
    }

    /** The next envelope for an engine that drives the link itself. Unlike the center's, this one
        leaves the recorded sequence alone. */
    method ReceiveEnvelope() returns (next: Next)
      modifies `inbound
      ensures next.NextEnvelope? ==>
                ReadAll(Site, old(inbound)).envelopes == [next.envelope] + ReadAll(Site, inbound).envelopes
      ensures next.NoMore? ==> ReadAll(Site, old(inbound)) == Frames([], next.end)
    {
      next, inbound := ReadNext(Site, inbound);
    }

    method HandleReplies(replies: seq<Reply>)
      modifies `nextSequence, `wire
      ensures var (c, out) := SendAll(old(State()).counters, replies);
              State() == Conn(c, old(wire) + out, old(handled))
    {
      var left := replies;
      while left != []
        invariant handled == old(handled)
        invariant SendAll(old(State()).counters, replies).0 == SendAll(State().counters, left).0
        invariant old(wire) + SendAll(old(State()).counters, replies).1 == wire + SendAll(State().counters, left).1
        decreases |left|
      {
        var _ := Send(left[0].message, left[0].fate);
        left := left[1..];
      }
    }

    /** The frame loop: a heartbeat on every tick, every envelope recorded and dispatched. */
    method Run(events: seq<SiteEvent>, handler: Handler) returns (end: SiteEnd)
      modifies `nextSequence, `ackedSequence, `wire, `handled
      ensures SiteRun(State(), end) == RunSite(old(State()), events, handler)
      ensures end.ReadEnd? ==>
                && EndsAs(Site, ReadsOf(events), end.end)
                && handled == old(handled) + EnvelopesIn(ReadsOf(events)[..Reach(Site, ReadsOf(events))])
    {
      ReadsToTheFirstEnd(Site, ReadsOf(events));
      HeartbeatsAreTransparent(State(), events, handler);
      var left := events;
      while left != []
        invariant RunSite(old(State()), events, handler) == RunSite(State(), left, handler)
        decreases |left|
      {
        var event := left[0];
        left := left[1..];
        if event.Tick? {
          var sent := Send(Heartbeat, event.fate);
          if !sent.Sent? {
            return HeartbeatFailed(sent);
          }
        } else {
          var next := SiteStep(event.read);
          if next.Some? {
            if next.value.NoMore? {
              return ReadEnd(next.value.end);
            }
            ackedSequence := next.value.envelope.sequence;
            var replies := handler(handled, next.value.envelope);
            handled := handled + [next.value.envelope];
            HandleReplies(replies);
          }
        }
      }
      return ReadEnd(Waiting);
    }

    /** Sends the Hello and awaits the center's answer, absorbing control frames. */
    method CompleteNegotiation(hello: Hello, fate: Fate) returns (r: LinkResult)
      modifies `nextSequence, `ackedSequence, `inbound, `wire
      ensures var s := SendStep(old(State()).counters, HelloMessage(hello), fate);
              var frames := ReadAll(Site, old(inbound));
              && wire == old(wire) + Wire(s.wire) && handled == old(handled) && nextSequence == s.counters.next
              && (!s.result.Sent? ==> r == HelloNotSent(s.result))
              && (s.result.Sent? && frames.envelopes == [] ==> r == NoAnswer(frames.end))
              && (s.result.Sent? && frames.envelopes != [] ==>
                    var verdict := ReadAnswer(frames.envelopes[0].message);
                    && (verdict.Linked? <==> r == Link)
                    && (!verdict.Linked? ==> r == Refused(verdict))
                    && ackedSequence == if verdict.NoResult? then old(ackedSequence) else frames.envelopes[0].sequence)
              && (!s.result.Sent? || frames.envelopes == [] ==> ackedSequence == old(ackedSequence))
    {
      var sent := Send(HelloMessage(hello), fate);
      if !sent.Sent? {
        return HelloNotSent(sent);
      }
      var next;
      next, inbound := ReadNext(Site, inbound);
      if next.NoMore? {
        return NoAnswer(next.end);
      }
      var verdict := ReadAnswer(next.envelope.message);
      if !verdict.NoResult? {
        ackedSequence := next.envelope.sequence;
      }
      return if verdict.Linked? then Link else Refused(verdict);
    }
  }

  // ----- Reconnecting -----

  /** One attempt of the retry loop, and whether the stop won the wait after it. */
  datatype Try = Try(linked: bool, stopped: bool)

  datatype RetryResult = Connected | StopRequested | StillRetrying

  /** Connects with a backoff until one attempt succeeds or the stop resolves between attempts. The
      stop is only looked at after a failed attempt, so a success beats it. */
  method ConnectWithRetry(tries: seq<Try>) returns (r: RetryResult, attempts: nat)
    ensures r.StillRetrying? <==> forall t | t in tries :: !t.linked && !t.stopped
    ensures r.StillRetrying? ==> attempts == |tries|
    ensures !r.StillRetrying? ==>
              && 1 <= attempts <= |tries|
              && (forall k | 0 <= k < attempts - 1 :: !tries[k].linked && !tries[k].stopped)
              && (r.Connected? <==> tries[attempts - 1].linked)
              && (r.StopRequested? <==> !tries[attempts - 1].linked && tries[attempts - 1].stopped)
  {
    attempts := 0;
    while attempts < |tries|
      invariant attempts <= |tries|
      invariant forall k | 0 <= k < attempts :: !tries[k].linked && !tries[k].stopped
    {
      var t := tries[attempts];
      attempts := attempts + 1;
      if t.linked {
        return Connected, attempts;
      }
      if t.stopped {
        return StopRequested, attempts;
      }
    }
    r := StillRetrying;
  }
}
