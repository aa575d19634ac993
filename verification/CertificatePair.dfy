/** The center's two certificate pairs, the CA and its server certificate, as load-or-generate
    protocols over two files each. A start of the center loads or generates the CA, then loads or
    issues the server pair; it may stop at any write, before or after the write landed. */
module CertificatePair {
  datatype File<+T> = Missing | Holds(content: T) | Unreadable

  /** Which key it certifies and which key signed it. A generation names one generated key. */
  datatype Certificate = Certificate(generation: nat, issuer: nat)

  /** `signing` is whether the key is in the one format the CA can sign with. */
  datatype PrivateKey = PrivateKey(generation: nat, signing: bool)

  datatype Pair = Pair(certificate: File<Certificate>, key: File<PrivateKey>)

  datatype TlsDirectory = TlsDirectory(ca: Pair, server: Pair)

  const EMPTY := TlsDirectory(Pair(Missing, Missing), Pair(Missing, Missing))

  datatype Which = CaPair | ServerPair

  datatype WriteStep = WriteCertificate | WriteKey

  /** Where a start stops: at one write of one pair, with the write landed or not. */
  datatype Fault = NoFault | Fault(which: Which, step: WriteStep, landed: bool)

  datatype PairError = BadCertificate | BadKey | BadPair | UnsupportedKey | WriteFailed

  datatype Loaded = Loaded(pair: Pair, result: Result)
  datatype Result = Identity(certificate: Certificate) | Failure(error: PairError)

  predicate Hits(fault: Fault, which: Which, step: WriteStep) {
    fault.Fault? && fault.which == which && fault.step == step
  }

  /** Generates a pair and persists the certificate and then the key. */
  function GenerateAndPersist(generated: Certificate, which: Which, fault: Fault): Loaded {
    var certificate, key := Holds(generated), Holds(PrivateKey(generated.generation, true));
    if Hits(fault, which, WriteCertificate)
    then Loaded(Pair(if fault.landed then certificate else Missing, Missing), Failure(WriteFailed))
    else if Hits(fault, which, WriteKey)
    then Loaded(Pair(certificate, if fault.landed then key else Missing), Failure(WriteFailed))
    else Loaded(Pair(certificate, key), Identity(generated))
  }

  /** Loads a present pair, generates a missing one, and refuses everything in between. */
  function LoadOrGenerate(pair: Pair, generated: Certificate, which: Which, fault: Fault): Loaded {
    match (pair.certificate, pair.key)
    case (Holds(certificate), Holds(key)) =>
      if which.CaPair? && !key.signing then Loaded(pair, Failure(UnsupportedKey))
      else Loaded(pair, Identity(certificate))
    case (Missing, Missing) => GenerateAndPersist(generated, which, fault)
    case (Holds(_), _) => Loaded(pair, Failure(BadKey))
    case (_, Holds(_)) => Loaded(pair, Failure(BadCertificate))
    case (_, _) => Loaded(pair, Failure(BadPair))
  }

  /** One start of the center: the keys it would generate, and where it stops. */
  datatype Start = Start(freshCa: nat, freshServer: nat, fault: Fault)

  datatype Outcome = Serving(ca: Certificate, server: Certificate) | NotServing(which: Which, error: PairError)

  datatype Run = Run(directory: TlsDirectory, outcome: Outcome)

  function StartCenter(d: TlsDirectory, s: Start): Run {
    var ca := LoadOrGenerate(d.ca, Certificate(s.freshCa, s.freshCa), CaPair, s.fault);
    match ca.result
    case Failure(error) => Run(d.(ca := ca.pair), NotServing(CaPair, error))
    case Identity(caCertificate) =>
      var server := LoadOrGenerate(d.server, Certificate(s.freshServer, caCertificate.generation), ServerPair, s.fault);
      var d' := TlsDirectory(ca.pair, server.pair);
      match server.result
      case Failure(error) => Run(d', NotServing(ServerPair, error))
      case Identity(serverCertificate) => Run(d', Serving(caCertificate, serverCertificate))
  }

  // ----- The program's form: the files of one pair, written in order -----

  class PairFiles {
    const which: Which
    var certificate: File<Certificate>
    var key: File<PrivateKey>

    function Files(): Pair
      reads this
    {
      Pair(certificate, key)
    }

    constructor (which: Which, pair: Pair)
      ensures this.which == which && Files() == pair
    {
      this.which, certificate, key := which, pair.certificate, pair.key;
    }

    method Persist(generated: Certificate, fault: Fault) returns (r: Result)
      requires certificate.Missing? && key.Missing?
      modifies this
      ensures Loaded(Files(), r) == GenerateAndPersist(generated, which, fault)
    {
      var stops := Hits(fault, which, WriteCertificate);
      if !stops || fault.landed { certificate := Holds(generated); }
      if stops { return Failure(WriteFailed); }
      stops := Hits(fault, which, WriteKey);
      if !stops || fault.landed { key := Holds(PrivateKey(generated.generation, true)); }
      if stops { return Failure(WriteFailed); }
      return Identity(generated);
    }

    method GenerateOrLoad(generated: Certificate, fault: Fault) returns (r: Result)
      modifies this
      ensures Loaded(Files(), r) == LoadOrGenerate(old(Files()), generated, which, fault)
      ensures forall error :: r == Failure(error) <==> PairFails(old(Files()), which, fault, error)
    {
      ghost var before := Files();
      forall error
        ensures LoadOrGenerate(before, generated, which, fault).result == Failure(error) <==>
                PairFails(before, which, fault, error)
      {
        PairTellsExactly(before, generated, which, fault, error);
      }
      if certificate.Holds? && key.Holds? {
        r := if which.CaPair? && !key.content.signing then Failure(UnsupportedKey) else Identity(certificate.content);
      } else if certificate.Missing? && key.Missing? {
        r := Persist(generated, fault);
      } else {
        r := Failure(if certificate.Holds? then BadKey else if key.Holds? then BadCertificate else BadPair);
      }
    }
  }

  /** A start of the center: the CA first, then the server pair it issues. */
  method StartOnFiles(ca: PairFiles, server: PairFiles, s: Start) returns (outcome: Outcome)
    requires ca != server && ca.which == CaPair && server.which == ServerPair
    modifies ca, server
    ensures Run(TlsDirectory(ca.Files(), server.Files()), outcome)
         == StartCenter(old(TlsDirectory(ca.Files(), server.Files())), s)
  {
    var caResult := ca.GenerateOrLoad(Certificate(s.freshCa, s.freshCa), s.fault);
    match caResult {
      case Failure(error) => outcome := NotServing(CaPair, error);
      case Identity(caCertificate) =>
        var result := server.GenerateOrLoad(Certificate(s.freshServer, caCertificate.generation), s.fault);
        match result {
          case Failure(error) => outcome := NotServing(ServerPair, error);
          case Identity(serverCertificate) => outcome := Serving(caCertificate, serverCertificate);
        }
    }
  }

  // ----- Any sequence of starts -----

  function Replay(d: TlsDirectory, h: seq<Start>): TlsDirectory {
    if h == [] then d else StartCenter(Replay(d, h[..|h| - 1]), h[|h| - 1]).directory
  }

  function OutcomeAt(d: TlsDirectory, h: seq<Start>, k: nat): Outcome
    requires k < |h|
  {
    StartCenter(Replay(d, h[..k]), h[k]).outcome
  }

  /** No file that is there changes. */
  predicate KeepsPair(p: Pair, p': Pair) {
    && (!p.certificate.Missing? ==> p'.certificate == p.certificate)
    && (!p.key.Missing? ==> p'.key == p.key)
  }

  predicate Keeps(d: TlsDirectory, d': TlsDirectory) {
    KeepsPair(d.ca, d'.ca) && KeepsPair(d.server, d'.server)
  }

  /** Whatever the directory held at first, no start of any sequence rewrites an existing file. */
  lemma {:induction false} NothingIsRewritten(d: TlsDirectory, h: seq<Start>, k: nat)
    requires k <= |h|
    ensures Keeps(Replay(d, h[..k]), Replay(d, h))
    decreases |h|
  {
    if k == |h| {
      assert h[..k] == h;
    } else {
      NothingIsRewritten(d, h[..|h| - 1], k);
      assert h[..|h| - 1][..k] == h[..k];
    }
  }

  /** A pair is loadable or still to be generated; otherwise the start fails. */
  predicate Startable(p: Pair, which: Which) {
    || (p.certificate.Missing? && p.key.Missing?)
    || (p.certificate.Holds? && p.key.Holds? && (which.CaPair? ==> p.key.content.signing))
  }

  /** A start without a fault serves exactly when both pairs are complete or absent. */
  lemma ServesExactly(d: TlsDirectory, s: Start)
    requires s.fault.NoFault?
    ensures StartCenter(d, s).outcome.Serving? <==> Startable(d.ca, CaPair) && Startable(d.server, ServerPair)
  {
  }

  /** Why one pair fails a start. */
  predicate PairFails(p: Pair, which: Which, fault: Fault, error: PairError) {
    match error
    case BadCertificate => !p.certificate.Holds? && p.key.Holds?
    case BadKey => p.certificate.Holds? && !p.key.Holds?
    case BadPair => !p.certificate.Holds? && !p.key.Holds? && (p.certificate.Unreadable? || p.key.Unreadable?)
    case UnsupportedKey => which.CaPair? && p.certificate.Holds? && p.key.Holds? && !p.key.content.signing
    case WriteFailed => p.certificate.Missing? && p.key.Missing? && fault.Fault? && fault.which == which
  }

  /** What is on the disk after a write failed: the certificate is written first, so a key is never there
      without its certificate. */
  predicate LeftByFault(p: Pair, generated: Certificate, fault: Fault) {
    match fault
    case NoFault => false
    case Fault(_, WriteCertificate, landed) =>
      p.certificate == (if landed then Holds(generated) else Missing) && p.key.Missing?
    case Fault(_, WriteKey, landed) =>
      && p.certificate == Holds(generated)
      && p.key == if landed then Holds(PrivateKey(generated.generation, true)) else Missing
  }

  /** One pair, whatever it held: a failure has its cause, a pair that is there is taken as it is, and an absent
      one becomes the generated pair or what a failed write leaves of it. */
  lemma PairTellsExactly(p: Pair, generated: Certificate, which: Which, fault: Fault, error: PairError)
    ensures var r := LoadOrGenerate(p, generated, which, fault);
            && (r.result == Failure(error) <==> PairFails(p, which, fault, error))
            && (r.result.Failure? && r.result.error != WriteFailed ==> r.pair == p)
            && (r.result == Failure(WriteFailed) ==> LeftByFault(r.pair, generated, fault))
            && (r.result.Identity? ==>
                  && (p.certificate.Holds? ==> r.pair == p && r.result.certificate == p.certificate.content)
                  && (!p.certificate.Holds? ==>
                        && p == Pair(Missing, Missing) && r.result.certificate == generated
                        && r.pair == Pair(Holds(generated), Holds(PrivateKey(generated.generation, true)))))
  {
  }

  /** From any directory: a start fails for the first cause, the CA's before the server's, and a failing CA
      leaves the server pair alone; a start that serves has the pairs that were there, and for an absent one a
      fresh pair of its own key, the server's issued by the CA it serves with. */
  lemma StartTellsExactly(d: TlsDirectory, s: Start, error: PairError)
    ensures var r := StartCenter(d, s);
            && (r.outcome == NotServing(CaPair, error) <==> PairFails(d.ca, CaPair, s.fault, error))
            && (r.outcome == NotServing(ServerPair, error) <==>
                  && (forall e :: !PairFails(d.ca, CaPair, s.fault, e))
                  && PairFails(d.server, ServerPair, s.fault, error))
            && (r.outcome.NotServing? && r.outcome.which == CaPair ==> r.directory.server == d.server)
            && (r.outcome.Serving? ==>
                  && r.outcome.ca
                     == (if d.ca.certificate.Holds? then d.ca.certificate.content
                         else Certificate(s.freshCa, s.freshCa))
                  && r.outcome.server
                     == (if d.server.certificate.Holds? then d.server.certificate.content
                         else Certificate(s.freshServer, r.outcome.ca.generation)))
  {
    hide LoadOrGenerate;
    var selfSigned := Certificate(s.freshCa, s.freshCa);
    var ca := LoadOrGenerate(d.ca, selfSigned, CaPair, s.fault);
    forall e ensures ca.result == Failure(e) <==> PairFails(d.ca, CaPair, s.fault, e) {
      PairTellsExactly(d.ca, selfSigned, CaPair, s.fault, e);
    }
    PairTellsExactly(d.ca, selfSigned, CaPair, s.fault, error);
    if ca.result.Identity? {
      PairTellsExactly(d.server, Certificate(s.freshServer, ca.result.certificate.generation), ServerPair, s.fault,
                       error);
    } else {
      assert PairFails(d.ca, CaPair, s.fault, ca.result.error);
    }
  }

  predicate HalfWritten(p: Pair) {
    p.certificate.Missing? != p.key.Missing?
  }

  /** A half-written pair makes every later start fail, with the pair still half written. */
  lemma {:induction false} HalfWrittenNeverServes(d: TlsDirectory, h: seq<Start>, more: seq<Start>)
    requires HalfWritten(Replay(d, h).ca) || HalfWritten(Replay(d, h).server)
    ensures HalfWritten(Replay(d, h + more).ca) || HalfWritten(Replay(d, h + more).server)
    ensures more != [] ==> OutcomeAt(d, h + more, |h + more| - 1).NotServing?
    decreases |more|
  {
    if more == [] {
      assert h + more == h;
    } else {
      assert (h + more)[..|h + more| - 1] == h + more[..|more| - 1];
      HalfWrittenNeverServes(d, h, more[..|more| - 1]);
    }
  }

  /** What the directory of a center that started empty can hold. */
  predicate Genuine(d: TlsDirectory) {
    && !d.ca.certificate.Unreadable? && !d.ca.key.Unreadable?
    && !d.server.certificate.Unreadable? && !d.server.key.Unreadable?
    && (d.ca.key.Holds? ==>
          && d.ca.certificate.Holds? && d.ca.key.content.signing
          && d.ca.key.content.generation == d.ca.certificate.content.generation)
    && (d.server.certificate.Holds? ==>
          && d.ca.certificate.Holds? && d.ca.key.Holds?
          && d.server.certificate.content.issuer == d.ca.certificate.content.generation)
    && (d.server.key.Holds? ==>
          && d.server.certificate.Holds?
          && d.server.key.content.generation == d.server.certificate.content.generation)
  }

  /** From an empty directory, a certificate and a key that are both there are one pair, and the
      server certificate was issued by the CA that is there, after every sequence of starts. */
  lemma {:induction false} PairsBelongTogether(h: seq<Start>)
    ensures Genuine(Replay(EMPTY, h))
  {
    if h != [] {
      PairsBelongTogether(h[..|h| - 1]);
    }
  }

  lemma ServingLeavesBothPairs(d: TlsDirectory, s: Start)
    requires StartCenter(d, s).outcome.Serving?
    ensures var r := StartCenter(d, s);
            && r.directory.ca.certificate == Holds(r.outcome.ca) && r.directory.ca.key.Holds?
            && r.directory.server.certificate == Holds(r.outcome.server) && r.directory.server.key.Holds?
  {
  }

  /** All successful starts report the same CA and the same server certificate. */
  lemma SuccessfulStartsAgree(d: TlsDirectory, h: seq<Start>, i: nat, j: nat)
    requires i < j < |h| && OutcomeAt(d, h, i).Serving? && OutcomeAt(d, h, j).Serving?
    ensures OutcomeAt(d, h, i) == OutcomeAt(d, h, j)
  {
    ServingLeavesBothPairs(Replay(d, h[..i]), h[i]);
    ServingLeavesBothPairs(Replay(d, h[..j]), h[j]);
    assert h[..i + 1][..i] == h[..i];
    assert h[..j + 1][..j] == h[..j];
    assert h[..j + 1][..i + 1] == h[..i + 1];
    NothingIsRewritten(d, h[..j + 1], i + 1);
  }
}
