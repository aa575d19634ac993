/** What both ends of the site-to-center connection read from the WebSocket: one message carries one
    frame, control messages are absorbed, everything else ends the connection. */
module CenterWire {
  import opened Wrappers

  datatype Hello = Hello(protocolVersion: nat, baseline: string, ledgerHash: seq<nat>, instanceId: string)

  datatype EnvelopeMessage =
    | HelloMessage(hello: Hello)
    | NegotiationResult(accepted: bool, reason: string)
    | Heartbeat
    | Other(body: seq<nat>)

  datatype Envelope = Envelope(sequence: nat, ackedSequence: nat, message: Option<EnvelopeMessage>)

  /** A binary payload: the encoding of one envelope, or bytes that are not one frame. */
  datatype Payload = Frame(envelope: Envelope) | Garbage(bytes: seq<nat>)

  function EncodeFrame(e: Envelope): Payload {
    Frame(e)
  }

  function DecodeFrame(p: Payload): Option<Envelope> {
    if p.Frame? then Some(p.envelope) else None
  }

  lemma DecodingUndoesEncoding(e: Envelope)
    ensures DecodeFrame(EncodeFrame(e)) == Some(e)
  {
  }

  datatype Message = Binary(payload: Payload) | Text | Raw | Ping | Pong | Close

  datatype Inbound = EnvelopeFrame(envelope: Envelope) | Control | Closed | ProtocolViolation | FrameError

  /** The one-message-one-frame rule. */
  function InboundFrame(m: Message): Inbound {
    match m
    case Binary(payload) =>
      var e := DecodeFrame(payload);
      if e.Some? then EnvelopeFrame(e.value) else FrameError
    case Ping | Pong => Control
    case Close => Closed
    case Text | Raw => ProtocolViolation
  }

  /** What one read of the transport gives. A control message is followed by a flush that may fail;
      `Silence` is the idle window passing with nothing read; a lost connection is an I/O error or
      the transport's own closed marker. */
  datatype Read =
    | Got(message: Message, flushed: bool)
    | StreamEnded
    | ConnectionLost
    | ReadFailed
    | Silence

  /** Why reading stopped. */
  datatype End = CleanEnd | BrokenFrame | Violation | ReadError | FlushError | IdleTimeout | Waiting

  datatype Next = NextEnvelope(envelope: Envelope) | NoMore(end: End)

  /** What the center's read loop makes of one read: an envelope, an end, or nothing. */
  function CenterStep(r: Read): Option<Next> {
    match r
    case Got(m, flushed) => (
      match InboundFrame(m)
      case EnvelopeFrame(e) => Some(NextEnvelope(e))
      case Control => if flushed then None else Some(NoMore(FlushError))
      case Closed => Some(NoMore(CleanEnd))
      case ProtocolViolation => Some(NoMore(Violation))
      case FrameError => Some(NoMore(BrokenFrame)))
    case StreamEnded => Some(NoMore(CleanEnd))
    case ConnectionLost => Some(NoMore(CleanEnd))
    case ReadFailed => Some(NoMore(ReadError))
    case Silence => Some(NoMore(IdleTimeout))
  }

  /** What the site's read loop makes of one read: no idle timeout, and every read error surfaces. */
  function SiteStep(r: Read): Option<Next> {
    match r
    case Got(m, flushed) => (
      match InboundFrame(m)
      case EnvelopeFrame(e) => Some(NextEnvelope(e))
      case Control => if flushed then None else Some(NoMore(FlushError))
      case Closed => Some(NoMore(CleanEnd))
      case ProtocolViolation => Some(NoMore(Violation))
      case FrameError => Some(NoMore(BrokenFrame)))
    case StreamEnded => Some(NoMore(CleanEnd))
    case ConnectionLost => Some(NoMore(ReadError))
    case ReadFailed => Some(NoMore(ReadError))
    case Silence => None
  }

  datatype Side = Center | Site

  function StepOf(side: Side, r: Read): Option<Next> {
    if side.Center? then CenterStep(r) else SiteStep(r)
  }

  /** The envelopes one end reads from a stream of reads, and why it stops. */
  datatype Frames = Frames(envelopes: seq<Envelope>, end: End)

  function ReadAll(side: Side, stream: seq<Read>): Frames {
    if stream == [] then Frames([], Waiting)
    else
      var next := StepOf(side, stream[0]);
      if next.None? then ReadAll(side, stream[1..])
      else if next.value.NoMore? then Frames([], next.value.end)
      else
        var rest := ReadAll(side, stream[1..]);
        Frames([next.value.envelope] + rest.envelopes, rest.end)
  }

  // ----- Which read ends the reading, and how -----

  predicate IsControl(r: Read) {
    r.Got? && (r.message.Ping? || r.message.Pong?)
  }

  predicate IsEnvelope(r: Read) {
    r.Got? && r.message.Binary? && r.message.payload.Frame?
  }

  /** The reads that end the reading on one side with a given end. A peer that closes, or a stream that is
      over, is a clean end; a message of text or a raw frame is a violation; bytes that are no frame are a
      broken frame. A lost connection is a clean end only for the center, and only the center times out. */
  predicate Earned(side: Side, r: Read, end: End) {
    match end
    case CleanEnd => (r.Got? && r.message.Close?) || r.StreamEnded? || (side.Center? && r.ConnectionLost?)
    case Violation => r.Got? && (r.message.Text? || r.message.Raw?)
    case BrokenFrame => r.Got? && r.message.Binary? && r.message.payload.Garbage?
    case FlushError => IsControl(r) && !r.flushed
    case ReadError => r.ReadFailed? || (side.Site? && r.ConnectionLost?)
    case IdleTimeout => side.Center? && r.Silence?
    case Waiting => false
  }

  /** The reads that do not end the reading: an envelope, a control message whose flush went through, and,
      for the site, silence. */
  predicate GoesOn(side: Side, r: Read) {
    IsEnvelope(r) || (IsControl(r) && r.flushed) || (side.Site? && r.Silence?)
  }

  /** How many reads come before the first that ends the reading. */
  function Reach(side: Side, stream: seq<Read>): (n: nat)
    ensures n <= |stream|
  {
    if stream == [] || !GoesOn(side, stream[0]) then 0 else 1 + Reach(side, stream[1..])
  }

  /** The envelopes among some reads. */
  function EnvelopesIn(stream: seq<Read>): seq<Envelope> {
    if stream == [] then []
    else (if IsEnvelope(stream[0]) then [stream[0].message.payload.envelope] else []) + EnvelopesIn(stream[1..])
  }

  /** The reading of a stream ends so: by the first read that ends it, or not at all. */
  predicate EndsAs(side: Side, stream: seq<Read>, end: End) {
    var k := Reach(side, stream);
    if k == |stream| then end == Waiting else Earned(side, stream[k], end)
  }

  /** Each read goes on or earns exactly one end. */
  lemma EarnedOnce(side: Side, r: Read)
    ensures GoesOn(side, r) <==> forall end :: !Earned(side, r, end)
    ensures forall end, other :: Earned(side, r, end) && Earned(side, r, other) ==> end == other
    ensures match StepOf(side, r)
            case None => GoesOn(side, r) && !IsEnvelope(r)
            case Some(NextEnvelope(e)) => GoesOn(side, r) && IsEnvelope(r) && e == r.message.payload.envelope
            case Some(NoMore(end)) => !GoesOn(side, r) && Earned(side, r, end)
  {
    if forall end :: !Earned(side, r, end) {
      assert !Earned(side, r, CleanEnd) && !Earned(side, r, Violation) && !Earned(side, r, BrokenFrame);
      assert !Earned(side, r, FlushError) && !Earned(side, r, ReadError) && !Earned(side, r, IdleTimeout);
    }
  }

  /** On any stream, troubled or not, an end reads exactly the envelopes before the first read that ends it,
      and its verdict is the one that read earns. */
  lemma {:induction false} ReadsToTheFirstEnd(side: Side, stream: seq<Read>)
    ensures ReadAll(side, stream).envelopes == EnvelopesIn(stream[..Reach(side, stream)])
    ensures forall end :: EndsAs(side, stream, end) <==> end == ReadAll(side, stream).end
    decreases |stream|
  {
    hide Earned, GoesOn, StepOf, IsEnvelope;
    var k := Reach(side, stream);
    if stream != [] {
      EarnedOnce(side, stream[0]);
      if k == 0 {
        assert stream[..k] == [];
      } else {
        ReadsToTheFirstEnd(side, stream[1..]);
        assert stream[..k][0] == stream[0] && stream[..k][1..] == stream[1..][..k - 1];
        assert k < |stream| ==> stream[k] == stream[1..][k - 1];
        forall end ensures EndsAs(side, stream, end) <==> EndsAs(side, stream[1..], end) {
        }
      }
    }
  }

  /** A read loop that returns the next envelope: what is left to read is the rest of the stream. */
  method ReadNext(side: Side, stream: seq<Read>) returns (next: Next, rest: seq<Read>)
    ensures next.NextEnvelope? ==>
              |rest| < |stream| && ReadAll(side, stream).end == ReadAll(side, rest).end
              && ReadAll(side, stream).envelopes == [next.envelope] + ReadAll(side, rest).envelopes
    ensures next.NoMore? ==> ReadAll(side, stream) == Frames([], next.end)
    ensures next.NoMore? ==> EndsAs(side, stream, next.end) && EnvelopesIn(stream[..Reach(side, stream)]) == []
    ensures next.NextEnvelope? ==>
              exists k | 0 <= k < Reach(side, stream) ::
                IsEnvelope(stream[k]) && stream[k].message.payload.envelope == next.envelope && rest == stream[k + 1..]
  {
    ReadsToTheFirstEnd(side, stream);
    rest := stream;
    while rest != []
      invariant |rest| <= |stream| && rest == stream[|stream| - |rest|..]
      invariant ReadAll(side, rest) == ReadAll(side, stream)
      invariant Reach(side, stream) == |stream| - |rest| + Reach(side, rest)
    {
      EarnedOnce(side, rest[0]);
      var step := StepOf(side, rest[0]);
      assert rest[0] == stream[|stream| - |rest|];
      rest := rest[1..];
      if step.Some? {
        return step.value, rest;
      }
    }
    return NoMore(Waiting), rest;
  }

  // ----- Control frames are transparent -----

  function WithoutControl(stream: seq<Read>): seq<Read> {
    if stream == [] then []
    else (if IsControl(stream[0]) then [] else [stream[0]]) + WithoutControl(stream[1..])
  }

  /** No flush fails and the idle window never passes. */
  predicate Untroubled(stream: seq<Read>) {
    forall r :: r in stream ==> !r.Silence? && (IsControl(r) ==> r.flushed)
  }

  lemma TailIsUntroubled(stream: seq<Read>)
    requires Untroubled(stream) && stream != []
    ensures Untroubled(stream[1..]) && !stream[0].Silence? && (IsControl(stream[0]) ==> stream[0].flushed)
  {
    assert stream[0] in stream;
  }

  /** Pings and pongs change neither the envelopes an end reads nor its verdict. */
  lemma {:induction false} ControlIsTransparent(side: Side, stream: seq<Read>)
    requires Untroubled(stream)
    ensures ReadAll(side, WithoutControl(stream)) == ReadAll(side, stream)
  {
    if stream != [] {
      TailIsUntroubled(stream);
      ControlIsTransparent(side, stream[1..]);
      if IsControl(stream[0]) {
        assert WithoutControl(stream) == WithoutControl(stream[1..]);
      } else {
        assert WithoutControl(stream)[1..] == WithoutControl(stream[1..]);
      }
    }
  }

  /** The envelopes before the first close, bad frame, text message, end or error. */
  function EnvelopesBeforeEnd(stream: seq<Read>): seq<Envelope> {
    if stream == [] || !IsEnvelope(stream[0]) then []
    else [stream[0].message.payload.envelope] + EnvelopesBeforeEnd(stream[1..])
  }

  /** The read that ends the stream, when one does. */
  function Terminator(stream: seq<Read>): Option<Read> {
    if stream == [] then None
    else if IsEnvelope(stream[0]) then Terminator(stream[1..])
    else Some(stream[0])
  }

  lemma {:induction false} PlainStream(side: Side, stream: seq<Read>)
    requires Untroubled(stream) && forall r :: r in stream ==> !IsControl(r)
    ensures var t := Terminator(stream);
            && ReadAll(side, stream).envelopes == EnvelopesBeforeEnd(stream)
            && (t.Some? ==> StepOf(side, t.value).Some? && StepOf(side, t.value).value.NoMore?)
            && ReadAll(side, stream).end == (if t.Some? then StepOf(side, t.value).value.end else Waiting)
  {
    if stream != [] {
      TailIsUntroubled(stream);
      assert !IsControl(stream[0]);
      PlainStream(side, stream[1..]);
    }
  }

  lemma {:induction false} WithoutControlHasNone(stream: seq<Read>)
    ensures forall r :: r in WithoutControl(stream) ==> r in stream && !IsControl(r)
  {
    if stream != [] {
      WithoutControlHasNone(stream[1..]);
    }
  }

  /** On any stream without flush failures and timeouts, both ends read the same envelopes: exactly
      those before the first end on the stream without pings and pongs. Their verdicts are the same
      too, unless the connection was lost: a clean end for the center, an error for the site. */
  lemma BothEndsReadTheSame(stream: seq<Read>)
    requires Untroubled(stream)
    ensures var plain := WithoutControl(stream);
            && ReadAll(Center, stream).envelopes == EnvelopesBeforeEnd(plain)
            && ReadAll(Site, stream).envelopes == EnvelopesBeforeEnd(plain)
            && (if Terminator(plain) == Some(ConnectionLost)
                then ReadAll(Center, stream).end == CleanEnd && ReadAll(Site, stream).end == ReadError
                else ReadAll(Center, stream).end == ReadAll(Site, stream).end)
  {
    var plain := WithoutControl(stream);
    ControlIsTransparent(Center, stream);
    ControlIsTransparent(Site, stream);
    WithoutControlHasNone(stream);
    PlainStream(Center, plain);
    PlainStream(Site, plain);
    TerminatorIsPlain(plain);
  }

  lemma {:induction false} TerminatorIsPlain(stream: seq<Read>)
    ensures Terminator(stream).Some? ==> Terminator(stream).value in stream
  {
    if stream != [] {
      TerminatorIsPlain(stream[1..]);
    }
  }
}
