/** Both ends of one connection and the two FIFO channels between them, as one machine. A channel may
    be cut at any time: what is in flight is lost from some point on, and nothing sent later
    arrives, although the sender may still believe it was sent. */
module CenterProtocol {
  import opened Wrappers

  import opened CenterWire
  import opened CenterConnection

  /** One direction: everything its sender put on the wire, what is still in flight, what the other
      end recorded, and how many sends took a sequence without getting out. */
  datatype Channel = Channel(
    sent: seq<Envelope>, inFlight: seq<Envelope>, recorded: seq<Envelope>, lost: nat, cut: bool)

  const FRESH_CHANNEL := Channel([], [], [], 0, false)

  datatype SiteStage = NotStarted | AwaitingResult | Established | SiteEnded(verdict: SiteVerdict) | SiteGone

  datatype CenterStage = AwaitingHello | Deciding(hello: Hello) | Serving | CenterGone

  datatype System = System(
    site: Counters,
    center: Counters,
    up: Channel,        // site to center
    down: Channel,      // center to site
    siteStage: SiteStage,
    centerStage: CenterStage,
    decision: Option<Decision>,
    admission: Option<Admission>,
    siteHandled: seq<Envelope>,
    centerHandled: seq<Envelope>)

  datatype Label =
    | SiteHello(hello: Hello, fate: Fate)
    | SiteSends(message: EnvelopeMessage, fate: Fate)
    | SiteReads
    | SiteQuits
    | CenterReads
    | CenterDecides(admission: Admission, fate: Fate)
    | CenterSends(message: EnvelopeMessage, fate: Fate)
    | CenterQuits
    | CutUp(keep: nat)
    | CutDown(keep: nat)

  const START := System(FRESH_COUNTERS, FRESH_COUNTERS, FRESH_CHANNEL, FRESH_CHANNEL, NotStarted, AwaitingHello,
                        None, None, [], [])

  /** The channel after one send. */
  function Put(ch: Channel, s: Sending): Channel {
    if s.wire.Some? then
      ch.(sent := ch.sent + [s.wire.value],
          inFlight := if ch.cut then ch.inFlight else ch.inFlight + [s.wire.value])
    else if s.result.SequenceOverflow? then ch
    else ch.(lost := ch.lost + 1)
  }

  /** The channel after its receiver took the oldest envelope in flight and recorded it. */
  function Take(ch: Channel): Channel
    requires ch.inFlight != []
  {
    ch.(inFlight := ch.inFlight[1..], recorded := ch.recorded + [ch.inFlight[0]])
  }

  function Cut(ch: Channel, keep: nat): Channel {
    ch.(cut := true, inFlight := if keep < |ch.inFlight| then ch.inFlight[..keep] else ch.inFlight)
  }

  function SiteSend(s: System, message: EnvelopeMessage, fate: Fate): System {
    var r := SendStep(s.site, message, fate);
    s.(site := r.counters, up := Put(s.up, r))
  }

  function CenterSend(s: System, message: EnvelopeMessage, fate: Fate): System {
    var r := SendStep(s.center, message, fate);
    s.(center := r.counters, down := Put(s.down, r))
  }

  /** The site reads an envelope: the first one is the answer to its Hello, the others go to its
      handler. An envelope that is not an answer ends the connection unrecorded. */
  function SiteRead(s: System): System
    requires s.down.inFlight != []
  {
    var e := s.down.inFlight[0];
    var s' := s.(site := s.site.(acked := e.sequence), down := Take(s.down));
    if s.siteStage.Established? then s'.(siteHandled := s.siteHandled + [e])
    else
      match ReadAnswer(e.message)
      case NoResult => s.(siteStage := SiteEnded(NoResult), down := Cut(s.down, 0))
      case Linked => s'.(siteStage := Established)
      case verdict => s'.(siteStage := SiteEnded(verdict))
  }

  function CenterRead(s: System): System
    requires s.up.inFlight != []
  {
    var e := s.up.inFlight[0];
    var s' := s.(center := s.center.(acked := e.sequence), up := Take(s.up));
    if s.centerStage.Serving? then s'.(centerHandled := s.centerHandled + [e])
    else if e.message.Some? && e.message.value.HelloMessage? then s'.(centerStage := Deciding(e.message.value.hello))
    else s.(centerStage := CenterGone, up := Cut(s.up, 0))
  }

  /** The center decides on the Hello and answers it; only an acceptance that went out lets it serve. */
  function CenterDecide(build: Build, s: System, admission: Admission, fate: Fate): System
    requires s.centerStage.Deciding?
  {
    var decision := Negotiate(build, s.centerStage.hello);
    var answer := Answer(decision, admission);
    var decided := s.(decision := Some(decision), admission := if decision.Compatible? then Some(admission) else None);
    if answer.None? then decided.(centerStage := CenterGone)
    else
      var r := SendStep(s.center, answer.value, fate);
      var serves := decision.Compatible? && admission.Admitted? && r.result.Sent?;
      CenterSend(decided, answer.value, fate).(centerStage := if serves then Serving else CenterGone)
  }

  function Apply(build: Build, s: System, l: Label): Option<System> {
    match l
    case SiteHello(hello, fate) =>
      if !s.siteStage.NotStarted? then None
      else
        var r := SendStep(s.site, HelloMessage(hello), fate);
        Some(SiteSend(s, HelloMessage(hello), fate).(siteStage := if r.result.Sent? then AwaitingResult else SiteGone))
    case SiteSends(message, fate) => if s.siteStage.Established? then Some(SiteSend(s, message, fate)) else None
    case SiteReads =>
      if (s.siteStage.AwaitingResult? || s.siteStage.Established?) && s.down.inFlight != [] then Some(SiteRead(s))
      else None
    case SiteQuits =>
      if s.siteStage.SiteEnded? then None else Some(s.(siteStage := SiteGone))
    case CenterReads =>
      if (s.centerStage.AwaitingHello? || s.centerStage.Serving?) && s.up.inFlight != [] then Some(CenterRead(s))
      else None
    case CenterDecides(admission, fate) =>
      if s.centerStage.Deciding? then Some(CenterDecide(build, s, admission, fate)) else None
    case CenterSends(message, fate) => if s.centerStage.Serving? then Some(CenterSend(s, message, fate)) else None
    case CenterQuits => Some(s.(centerStage := CenterGone))
    case CutUp(keep) => Some(s.(up := Cut(s.up, keep)))
    case CutDown(keep) => Some(s.(down := Cut(s.down, keep)))
  }

  function Execute(build: Build, ls: seq<Label>): Option<System> {
    if ls == [] then Some(START)
    else
      var before := Execute(build, ls[..|ls| - 1]);
      if before.Some? then Apply(build, before.value, ls[|ls| - 1]) else None
  }

  // ----- Sequences and acknowledgements -----

  /** The sender's counter and the channel: everything sent has a sequence below the counter, in
      strictly increasing order, contiguous when no send was lost. */
  ghost predicate SenderAgrees(next: Sequence, ch: Channel) {
    && StrictlyIncreasing(ch.sent)
    && (forall e | e in ch.sent :: 1 <= e.sequence < next)
    && next == 1 + |ch.sent| + ch.lost
    && (ch.lost == 0 ==> forall i | 0 <= i < |ch.sent| :: ch.sent[i].sequence == i + 1)
  }

  /** The channel is FIFO: what was recorded and what is in flight is a prefix of what was sent. */
  ghost predicate Fifo(ch: Channel) {
    && ch.recorded + ch.inFlight <= ch.sent
    && (!ch.cut ==> ch.recorded + ch.inFlight == ch.sent)
  }

  function LastSequence(es: seq<Envelope>): nat {
    if es == [] then 0 else es[|es| - 1].sequence
  }

  ghost predicate ChannelAgrees(sender: Counters, receiver: Counters, ch: Channel) {
    SenderAgrees(sender.next, ch) && Fifo(ch) && receiver.acked == LastSequence(ch.recorded)
  }

  lemma PutKeepsChannel(sender: Counters, receiver: Counters, ch: Channel, message: EnvelopeMessage, fate: Fate)
    requires ChannelAgrees(sender, receiver, ch)
    ensures var r := SendStep(sender, message, fate);
            ChannelAgrees(r.counters, receiver, Put(ch, r)) && r.counters.acked == sender.acked
  {
    var r := SendStep(sender, message, fate);
    if r.wire.Some? {
      var ch' := Put(ch, r);
      assert ch'.recorded + ch.inFlight + [r.wire.value] == ch'.recorded + (ch.inFlight + [r.wire.value]);
    }
  }

  lemma TakeKeepsChannel(sender: Counters, receiver: Counters, ch: Channel)
    requires ChannelAgrees(sender, receiver, ch) && ch.inFlight != []
    ensures ChannelAgrees(sender, receiver.(acked := ch.inFlight[0].sequence), Take(ch))
    ensures ch.inFlight[0].sequence > receiver.acked
    ensures |ch.recorded| < |ch.sent| && ch.inFlight[0] == ch.sent[|ch.recorded|]
  {
    assert (ch.recorded + [ch.inFlight[0]]) + ch.inFlight[1..] == ch.recorded + ch.inFlight;
    assert (ch.recorded + ch.inFlight)[|ch.recorded|] == ch.inFlight[0];
    if ch.recorded != [] {
      assert (ch.recorded + ch.inFlight)[|ch.recorded| - 1] == ch.recorded[|ch.recorded| - 1];
    }
    assert ch.inFlight[0] in ch.sent;
  }

  lemma CutKeepsChannel(sender: Counters, receiver: Counters, ch: Channel, keep: nat)
    requires ChannelAgrees(sender, receiver, ch)
    ensures ChannelAgrees(sender, receiver, Cut(ch, keep))
  {
    assert ch.recorded + Cut(ch, keep).inFlight <= ch.recorded + ch.inFlight;
  }

  /** What every recorded sequence says about both ends: the receiver's acknowledgement is the
      highest sequence it recorded, and it is below the sender's counter. */
  lemma AckIsHighest(sender: Counters, receiver: Counters, ch: Channel)
    requires ChannelAgrees(sender, receiver, ch)
    ensures receiver.acked < sender.next
    ensures forall e | e in ch.recorded :: e.sequence <= receiver.acked
    ensures StrictlyIncreasing(ch.recorded)
  {
    assert forall i | 0 <= i < |ch.recorded| :: ch.recorded[i] == (ch.recorded + ch.inFlight)[i] == ch.sent[i];
    if ch.recorded != [] {
      assert ch.recorded[|ch.recorded| - 1] in ch.sent;
    }
  }

  // ----- Negotiation -----

  /** The first envelope the center puts on the wire is the answer to what it decided. */
  ghost predicate AnswerAgrees(s: System) {
    && (s.centerStage.AwaitingHello? || s.centerStage.Deciding? ==>
          s.down.sent == [] && s.decision.None? && s.admission.None?)
    && (s.down.sent != [] ==>
          && s.decision.Some?
          && (s.decision.value.Compatible? ==> s.admission.Some?)
          && (s.decision.value.Incompatible? ==> s.admission.None?)
          && s.down.sent[0].message
             == Answer(s.decision.value, if s.admission.Some? then s.admission.value else LookupFailed)
          && s.down.sent[0].message.Some?)
    && (s.admission.Some? ==> s.decision == Some(Compatible))
    && (s.centerStage.Serving? ==>
          s.decision == Some(Compatible) && s.admission == Some(Admitted) && s.down.sent != [])
  }

  /** The decision is about the Hello the site sent, the first envelope the center recorded. */
  ghost predicate DecisionAgrees(build: Build, s: System) {
    && (s.centerStage.Deciding? ==>
          s.up.recorded != [] && s.up.recorded[0].message == Some(HelloMessage(s.centerStage.hello)))
    && (s.decision.Some? ==>
          && s.up.recorded != [] && s.up.recorded[0].message.Some? && s.up.recorded[0].message.value.HelloMessage?
          && s.decision.value == Negotiate(build, s.up.recorded[0].message.value.hello))
    && (s.centerStage.AwaitingHello? ==> s.up.recorded == [])
  }

  /** What the site knows is what the center decided. */
  ghost predicate SiteAgrees(s: System) {
    && (s.siteStage.Established? || s.siteHandled != [] ==>
          s.decision == Some(Compatible) && s.admission == Some(Admitted))
    && (s.siteStage.NotStarted? || s.siteStage.AwaitingResult? ==> s.down.recorded == [] && s.siteHandled == [])
    && (s.siteStage.SiteEnded? ==>
          var v := s.siteStage.verdict;
          && s.siteHandled == []
          && !v.Linked? && !v.NoResult?
          && (v.NotBound? <==> s.decision == Some(Compatible) && s.admission == Some(RefusedOtherwise))
          && (v.IdentityMismatch? <==> s.decision == Some(Compatible) && s.admission == Some(RefusedIdentityMismatch))
          && (v.Rejected? <==> s.decision.Some? && s.decision.value.Incompatible?)
          && (v.Rejected? ==> v.reason == MismatchCode(s.decision.value.reason)))
  }

  /** No frame reaches the center's handler before the acceptance went out. */
  ghost predicate HandlersAgree(s: System) {
    s.centerHandled != [] ==> s.decision == Some(Compatible) && s.admission == Some(Admitted)
  }

  ghost predicate Invariant(build: Build, s: System) {
    && ChannelAgrees(s.site, s.center, s.up)
    && ChannelAgrees(s.center, s.site, s.down)
    && AnswerAgrees(s) && DecisionAgrees(build, s) && SiteAgrees(s) && HandlersAgree(s)
  }

  lemma SiteSendKeepsInvariant(build: Build, s: System, message: EnvelopeMessage, fate: Fate)
    requires Invariant(build, s)
    ensures Invariant(build, SiteSend(s, message, fate))
  {
    hide SenderAgrees, Fifo, Negotiate;
    PutKeepsChannel(s.site, s.center, s.up, message, fate);
  }

  lemma CenterSendKeepsInvariant(build: Build, s: System, message: EnvelopeMessage, fate: Fate)
    requires Invariant(build, s) && s.centerStage.Serving?
    ensures Invariant(build, CenterSend(s, message, fate))
  {
    hide SenderAgrees, Fifo, Negotiate;
    PutKeepsChannel(s.center, s.site, s.down, message, fate);
  }

  /** A decision changes the center's side only: its answer, if there is one, goes down. */
  lemma DecisionKeepsSite(build: Build, s: System, admission: Admission, fate: Fate)
    requires Invariant(build, s) && s.centerStage.Deciding?
    ensures ChannelAgrees(s.site, CenterDecide(build, s, admission, fate).center, s.up)
    ensures SiteAgrees(CenterDecide(build, s, admission, fate))
    ensures HandlersAgree(CenterDecide(build, s, admission, fate))
  {
    hide SenderAgrees, Fifo, Negotiate, DecisionAgrees;
    NothingSentNothingRecorded(s.down);
    var answer := Answer(Negotiate(build, s.centerStage.hello), admission);
    if answer.Some? {
      PutKeepsChannel(s.center, s.site, s.down, answer.value, fate);
    }
  }

  /** What goes down is the answer to the decision. */
  lemma DecisionKeepsCenter(build: Build, s: System, admission: Admission, fate: Fate)
    requires Invariant(build, s) && s.centerStage.Deciding?
    ensures var s' := CenterDecide(build, s, admission, fate);
            ChannelAgrees(s'.center, s'.site, s'.down) && AnswerAgrees(s') && DecisionAgrees(build, s')
  {
    hide SenderAgrees, Fifo, Negotiate, SiteAgrees, HandlersAgree;
    var answer := Answer(Negotiate(build, s.centerStage.hello), admission);
    if answer.Some? {
      PutKeepsChannel(s.center, s.site, s.down, answer.value, fate);
    }
  }

  lemma CenterDecideKeepsInvariant(build: Build, s: System, admission: Admission, fate: Fate)
    requires Invariant(build, s) && s.centerStage.Deciding?
    ensures Invariant(build, CenterDecide(build, s, admission, fate))
  {
    hide ChannelAgrees, AnswerAgrees, DecisionAgrees, SiteAgrees, HandlersAgree, Negotiate, Answer;
    DecisionKeepsSite(build, s, admission, fate);
    DecisionKeepsCenter(build, s, admission, fate);
    UpIsUntouched(build, s, admission, fate);
  }

  lemma UpIsUntouched(build: Build, s: System, admission: Admission, fate: Fate)
    requires s.centerStage.Deciding?
    ensures var s' := CenterDecide(build, s, admission, fate); s'.up == s.up && s'.site == s.site
  {
  }

  lemma NothingSentNothingRecorded(ch: Channel)
    requires Fifo(ch) && ch.sent == []
    ensures ch.recorded == []
  {
    assert |ch.recorded + ch.inFlight| <= |ch.sent|;
  }

  lemma SiteReadKeepsInvariant(build: Build, s: System)
    requires Invariant(build, s) && (s.siteStage.AwaitingResult? || s.siteStage.Established?) && s.down.inFlight != []
    ensures Invariant(build, SiteRead(s))
  {
    hide SenderAgrees, Fifo, Negotiate;
    TakeKeepsChannel(s.center, s.site, s.down);
    CutKeepsChannel(s.center, s.site, s.down, 0);
    if s.siteStage.AwaitingResult? {
      assert s.down.inFlight[0] == s.down.sent[0];
      AnswersAreUnderstood(s.decision.value, if s.admission.Some? then s.admission.value else LookupFailed);
    }
  }

  lemma CenterReadKeepsInvariant(build: Build, s: System)
    requires Invariant(build, s) && (s.centerStage.AwaitingHello? || s.centerStage.Serving?) && s.up.inFlight != []
    ensures Invariant(build, CenterRead(s))
  {
    hide SenderAgrees, Fifo;
    TakeKeepsChannel(s.site, s.center, s.up);
    CutKeepsChannel(s.site, s.center, s.up, 0);
  }

  lemma ApplyKeepsInvariant(build: Build, s: System, l: Label)
    requires Invariant(build, s) && Apply(build, s, l).Some?
    ensures Invariant(build, Apply(build, s, l).value)
  {
    hide SenderAgrees, Fifo, Negotiate;
    match l {
      case SiteHello(hello, fate) => SiteSendKeepsInvariant(build, s, HelloMessage(hello), fate);
      case SiteSends(message, fate) => SiteSendKeepsInvariant(build, s, message, fate);
      case SiteReads => SiteReadKeepsInvariant(build, s);
      case CenterReads => CenterReadKeepsInvariant(build, s);
      case CenterDecides(admission, fate) => CenterDecideKeepsInvariant(build, s, admission, fate);
      case CenterSends(message, fate) => CenterSendKeepsInvariant(build, s, message, fate);
      case CutUp(keep) => CutKeepsChannel(s.site, s.center, s.up, keep);
      case CutDown(keep) => CutKeepsChannel(s.center, s.site, s.down, keep);
      case _ =>
    }
  }

  lemma {:induction false} EveryRunKeepsInvariant(build: Build, ls: seq<Label>)
    requires Execute(build, ls).Some?
    ensures Invariant(build, Execute(build, ls).value)
  {
    if ls != [] {
      EveryRunKeepsInvariant(build, ls[..|ls| - 1]);
      ApplyKeepsInvariant(build, Execute(build, ls[..|ls| - 1]).value, ls[|ls| - 1]);
    }
  }

  // ----- What every run guarantees -----

  /** In each direction: the sequences sent start at 1, strictly increase, never reach the largest
      u64, and are contiguous while no send is lost; each end's acknowledgement is the highest
      sequence it recorded and is below the other end's counter. */
  lemma SequencesAgree(build: Build, ls: seq<Label>)
    requires Execute(build, ls).Some?
    ensures var s := Execute(build, ls).value;
            && StrictlyIncreasing(s.up.sent) && StrictlyIncreasing(s.down.sent)
            && (forall e | e in s.up.sent + s.down.sent :: 1 <= e.sequence < U64_MAX)
            && (s.up.lost == 0 ==> forall i | 0 <= i < |s.up.sent| :: s.up.sent[i].sequence == i + 1)
            && (s.down.lost == 0 ==> forall i | 0 <= i < |s.down.sent| :: s.down.sent[i].sequence == i + 1)
            && s.center.acked == LastSequence(s.up.recorded) && s.site.acked == LastSequence(s.down.recorded)
            && (forall e | e in s.up.recorded :: e.sequence <= s.center.acked)
            && (forall e | e in s.down.recorded :: e.sequence <= s.site.acked)
            && s.center.acked < s.site.next && s.site.acked < s.center.next
  {
    hide Execute, AnswerAgrees, DecisionAgrees, SiteAgrees;
    EveryRunKeepsInvariant(build, ls);
    var s := Execute(build, ls).value;
    AckIsHighest(s.site, s.center, s.up);
    AckIsHighest(s.center, s.site, s.down);
  }

  /** No step lowers a counter or an acknowledgement. */
  lemma CountersNeverDecrease(build: Build, s: System, l: Label)
    requires Invariant(build, s) && Apply(build, s, l).Some?
    ensures var s' := Apply(build, s, l).value;
            && s.site.next <= s'.site.next && s.center.next <= s'.center.next
            && s.site.acked <= s'.site.acked && s.center.acked <= s'.center.acked
  {
    hide SenderAgrees, Fifo, AnswerAgrees, DecisionAgrees, SiteAgrees, HandlersAgree, Negotiate;
    if l.SiteReads? {
      TakeKeepsChannel(s.center, s.site, s.down);
    } else if l.CenterReads? {
      TakeKeepsChannel(s.site, s.center, s.up);
    }
  }

  /** Whatever is lost on the way: the site has a link only if the center found the site's own Hello
      compatible and admitted it; it reports NotBound and IdentityMismatch exactly for the two kinds
      of admission refusal, and a protocol rejection for the mismatch the center found; a failed
      lookup makes it report none of these; and neither handler sees a frame before an acceptance. */
  lemma NegotiationAgreement(build: Build, ls: seq<Label>)
    requires Execute(build, ls).Some?
    ensures var s := Execute(build, ls).value;
            && (s.siteStage.Established? || s.siteHandled != [] || s.centerHandled != [] || s.centerStage.Serving? ==>
                  && s.decision == Some(Compatible) && s.admission == Some(Admitted)
                  && s.up.recorded != [] && s.up.recorded[0].message.Some?
                  && s.up.recorded[0].message.value.HelloMessage?
                  && Negotiate(build, s.up.recorded[0].message.value.hello).Compatible?
                  && Agrees(build, s.up.recorded[0].message.value.hello))
            && (s.siteStage.SiteEnded? ==>
                  var v := s.siteStage.verdict;
                  && (v.NotBound? <==> s.admission == Some(RefusedOtherwise))
                  && (v.IdentityMismatch? <==> s.admission == Some(RefusedIdentityMismatch))
                  && (v.Rejected? <==> s.decision.Some? && s.decision.value.Incompatible?)
                  && (v.NotBound? || v.IdentityMismatch? || v.Rejected?))
            && (s.admission == Some(LookupFailed) ==> !s.siteStage.SiteEnded? && !s.siteStage.Established?)
  {
    hide Execute, ChannelAgrees, Negotiate, Agrees;
    EveryRunKeepsInvariant(build, ls);
    forall hello ensures Negotiate(build, hello).Compatible? <==> Agrees(build, hello) {
      CompatibleMeansAgreed(build, hello);
    }
  }
}
