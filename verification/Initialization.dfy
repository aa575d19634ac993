/** Standalone initialization as a crash-recovery protocol: the durable order is master key, database,
    administrator, role, one-time code, marker. An attempt may crash or fail at any step, with the
    effect of that step landed, not landed, or (for the marker's bytes) landed in part. */
module Initialization {
  import opened Wrappers

  // ----- The passphrase guard -----

  const MINIMUM_PASSPHRASE_CHARACTERS := 12
  const MAXIMUM_PASSPHRASE_BYTES := 1024

  type Passphrase = string

  function Utf8Width(c: char): nat {
    if c < '\U{80}' then 1 else if c < '\U{800}' then 2 else if c < '\U{10000}' then 3 else 4
  }

  function Utf8Length(s: string): nat {
    if s == [] then 0 else Utf8Width(s[0]) + Utf8Length(s[1..])
  }

  datatype UnlockError = TooShort | TooLong | ConfirmationMismatch

  datatype Unlock = Unlocked(passphrase: Passphrase) | Rejected(error: UnlockError)

  function ConfirmUnlock(passphrase: Passphrase, confirmation: Passphrase): Unlock {
    if Utf8Length(passphrase) > MAXIMUM_PASSPHRASE_BYTES then Rejected(TooLong)
    else if |passphrase| < MINIMUM_PASSPHRASE_CHARACTERS then Rejected(TooShort)
    else if passphrase != confirmation then Rejected(ConfirmationMismatch)
    else Unlocked(passphrase)
  }

  lemma {:induction false} CharactersWithinBytes(s: string)
    ensures |s| <= Utf8Length(s) <= 4 * |s|
  {
    if s != [] {
      CharactersWithinBytes(s[1..]);
    }
  }

  /** Both bounds are effective: an accepted passphrase has 12 to 1024 characters, and a confirmed
      one of 12 to 256 characters is accepted whatever characters it has. */
  lemma AcceptedPassphrases(p: Passphrase, c: Passphrase)
    ensures ConfirmUnlock(p, c).Unlocked? ==> p == c && 12 <= |p| <= 1024
    ensures p == c && 12 <= |p| <= 256 ==> ConfirmUnlock(p, c) == Unlocked(p)
  {
    CharactersWithinBytes(p);
  }

  /** Every refusal has its cause: the byte bound is looked at first, then the characters, then the confirmation;
      and the message TooLong is only for passphrases of more than 256 characters. */
  lemma RejectedExactly(p: Passphrase, c: Passphrase)
    ensures ConfirmUnlock(p, c) == Rejected(TooLong) <==> Utf8Length(p) > 1024
    ensures ConfirmUnlock(p, c) == Rejected(TooShort) <==> |p| < 12
    ensures ConfirmUnlock(p, c) == Rejected(ConfirmationMismatch) <==> 12 <= |p| && Utf8Length(p) <= 1024 && p != c
    ensures ConfirmUnlock(p, c) == Rejected(TooLong) ==> |p| > 256
  {
    CharactersWithinBytes(p);
  }

  // ----- The durable state -----

  type Key = nat
  type Code = nat

  /** A master key protected under a passphrase; `legacy` is the older envelope format. */
  datatype Envelope = Envelope(key: Key, passphrase: Passphrase, legacy: bool)

  datatype BootstrapCode = BootstrapCode(raw: Code, used: bool)

  datatype Database = Database(principal: bool, role: bool, codes: seq<BootstrapCode>)

  /** The marker file: absent, cut short by an interrupted write, or valid. */
  datatype Marker = MarkerMissing | MarkerTorn | MarkerComplete

  datatype Durable = Durable(
    envelope: Option<Envelope>,
    database: Option<Database>,
    marker: Marker,
    printed: seq<Code>)      // the codes the operator has been shown

  const EMPTY := Durable(None, None, MarkerMissing, [])

  datatype StepName =
    | AcquireLock | InspectPaths | LoadKey | MigrateKey | GenerateKey | CreateKey
    | OpenStore | FindPrincipal | CreatePrincipal | AssignRole | GenerateCode | CreateCode | PrintCode
    | CloseStore | CreateMarker

  datatype Progress = Nothing | Partial | Whole

  datatype Fault =
    | NoFault
    | Fault(step: StepName, progress: Progress, crash: bool)

  datatype Attempt = Attempt(passphrase: Passphrase, freshKey: Key, freshCode: Code, fault: Fault)

  datatype Refusal =
    | AlreadyInitialized
    | IncompleteInstance(keyMissing: bool, databaseMissing: bool)
    | UnreadableMarker
    | UnpairedDatabase
    | WrongPassphrase
    | InconsistentSeeding

  datatype Outcome =
    | Created
    | Resumed
    | Refused(why: Refusal)
    | Interrupted(step: StepName)

  datatype Run = Run(state: Durable, outcome: Outcome)

  predicate Succeeds(o: Outcome) {
    o.Created? || o.Resumed?
  }

  predicate FaultAt(a: Attempt, step: StepName) {
    a.fault.Fault? && a.fault.step == step
  }

  /** A step that is about to change the durable state from `before` to `after`: what it leaves
      behind when the fault hits it, and None when it does not. */
  function Torn(a: Attempt, step: StepName, before: Durable, after: Durable): Option<Run> {
    if !FaultAt(a, step) then None
    else Some(Run(if a.fault.progress.Whole? then after else before, Interrupted(step)))
  }

  predicate HasUnconsumedCode(db: Database) {
    exists k :: 0 <= k < |db.codes| && !db.codes[k].used
  }

  // ----- What one attempt does -----

  /** The last steps: close the store and write the completion marker. */
  function Commit(d: Durable, a: Attempt, outcome: Outcome): Run {
    if FaultAt(a, CloseStore) then Run(d, Interrupted(CloseStore))
    else if FaultAt(a, CreateMarker) then
      var marker := match a.fault.progress
        case Nothing => MarkerMissing
        case Partial => MarkerTorn
        case Whole => MarkerComplete;
      Run(d.(marker := marker), Interrupted(CreateMarker))
    else Run(d.(marker := MarkerComplete), outcome)
  }

  function WithDatabase(d: Durable, db: Database): Durable {
    d.(database := Some(db))
  }

  /** The four writes of a first seeding, each its own transaction. */
  function SeedFresh(d: Durable, db: Database, a: Attempt, outcome: Outcome): Run {
    var d1 := WithDatabase(d, db.(principal := true));
    var d2 := WithDatabase(d, db.(principal := true, role := true));
    var d3 := WithDatabase(d, Database(true, true, db.codes + [BootstrapCode(a.freshCode, false)]));
    var d4 := d3.(printed := d.printed + [a.freshCode]);
    var f1 := Torn(a, CreatePrincipal, d, d1);
    var f2 := Torn(a, AssignRole, d1, d2);
    var f3 := Torn(a, CreateCode, d2, d3);
    var f4 := Torn(a, PrintCode, d3, d4);
    if f1.Some? then f1.value
    else if f2.Some? then f2.value
    else if FaultAt(a, GenerateCode) then Run(d2, Interrupted(GenerateCode))
    else if f3.Some? then f3.value
    else if f4.Some? then f4.value
    else Commit(d4, a, outcome)
  }

  function Seed(d: Durable, db: Database, a: Attempt, outcome: Outcome): Run {
    if FaultAt(a, FindPrincipal) then Run(d, Interrupted(FindPrincipal))
    else if !db.principal then SeedFresh(d, db, a, outcome)
    else if !HasUnconsumedCode(db) then Run(d, Refused(InconsistentSeeding))
    else Commit(d, a, outcome)
  }

  function OpenAndSeed(d: Durable, a: Attempt, outcome: Outcome): Run {
    var db := if d.database.Some? then d.database.value else Database(false, false, []);
    var opened' := WithDatabase(d, db);
    var f := Torn(a, OpenStore, d, opened');
    if f.Some? then f.value else Seed(opened', db, a, outcome)
  }

  /** A recovered legacy envelope is re-protected; a failure to do so is only a warning. */
  function Migrate(d: Durable, a: Attempt): Durable
    requires d.envelope.Some?
  {
    var e := d.envelope.value;
    if e.legacy && (FaultAt(a, MigrateKey) ==> a.fault.progress.Whole?)
    then d.(envelope := Some(e.(legacy := false))) else d
  }

  function Initialize(d: Durable, a: Attempt): Run {
    if FaultAt(a, AcquireLock) then Run(d, Interrupted(AcquireLock))
    else if FaultAt(a, InspectPaths) then Run(d, Interrupted(InspectPaths))
    else match d.marker
    case MarkerTorn => Run(d, Refused(UnreadableMarker))
    case MarkerComplete =>
      if d.envelope.Some? && d.database.Some? then Run(d, Refused(AlreadyInitialized))
      else Run(d, Refused(IncompleteInstance(d.envelope.None?, d.database.None?)))
    case MarkerMissing =>
      if d.envelope.Some? then
        if FaultAt(a, LoadKey) then Run(d, Interrupted(LoadKey))
        else if a.passphrase != d.envelope.value.passphrase then Run(d, Refused(WrongPassphrase))
        else
          var d' := Migrate(d, a);
          if d.envelope.value.legacy && FaultAt(a, MigrateKey) && a.fault.crash then Run(d', Interrupted(MigrateKey))
          else OpenAndSeed(d', a, Resumed)
      else if d.database.Some? then Run(d, Refused(UnpairedDatabase))
      else if FaultAt(a, GenerateKey) then Run(d, Interrupted(GenerateKey))
      else
        var d' := d.(envelope := Some(Envelope(a.freshKey, a.passphrase, false)));
        var f := Torn(a, CreateKey, d, d');
        if f.Some? then f.value else OpenAndSeed(d', a, Created)
  }

  // ----- What one attempt makes of any state, reachable or not -----

  /** What stands in the way of an attempt, refusal by refusal. */
  predicate Hinders(d: Durable, a: Attempt, why: Refusal) {
    match why
    case UnreadableMarker => d.marker.MarkerTorn?
    case AlreadyInitialized => d.marker.MarkerComplete? && d.envelope.Some? && d.database.Some?
    case IncompleteInstance(keyMissing, databaseMissing) =>
      && d.marker.MarkerComplete? && (keyMissing || databaseMissing)
      && (keyMissing <==> d.envelope.None?) && (databaseMissing <==> d.database.None?)
    case UnpairedDatabase => d.marker.MarkerMissing? && d.envelope.None? && d.database.Some?
    case WrongPassphrase =>
      d.marker.MarkerMissing? && d.envelope.Some? && d.envelope.value.passphrase != a.passphrase
    case InconsistentSeeding =>
      && d.marker.MarkerMissing? && d.envelope.Some? && d.envelope.value.passphrase == a.passphrase
      && d.database.Some? && d.database.value.principal && !HasUnconsumedCode(d.database.value)
  }

  lemma SeedingRefuses(d: Durable, a: Attempt, outcome: Outcome)
    requires Succeeds(outcome)
    ensures var r := OpenAndSeed(d, a, outcome);
            var hindered := d.database.Some? && d.database.value.principal && !HasUnconsumedCode(d.database.value);
            && (r.outcome.Refused? ==> r == Run(d, Refused(InconsistentSeeding)) && hindered)
            && (Succeeds(r.outcome) ==> r.outcome == outcome && !hindered)
            && (a.fault.NoFault? ==> (Succeeds(r.outcome) <==> !hindered) && (r.outcome.Refused? <==> hindered))
  {
    hide HasUnconsumedCode;
  }

  /** From any state at all: a refusal has its cause in that state and leaves it alone, but for a legacy
      envelope that was re-protected before the store turned out to be seeded without a code; without a fault
      each cause is refused for what it is, and an attempt succeeds exactly when there is none. */
  lemma RefusedExactly(d: Durable, a: Attempt, why: Refusal)
    ensures var r := Initialize(d, a);
            && (r.outcome == Refused(why) ==> Hinders(d, a, why))
            && (a.fault.NoFault? && Hinders(d, a, why) ==> r.outcome == Refused(why))
            && (Hinders(d, a, why) ==> !Succeeds(r.outcome))
            && (r.outcome.Refused? ==> r.state == d.(envelope := r.state.envelope))
            && (r.outcome.Refused? && why != InconsistentSeeding && Hinders(d, a, why) ==> r.state == d)
            && (a.fault.NoFault? ==>
                  (Succeeds(r.outcome) <==> !r.outcome.Refused?) && (Succeeds(r.outcome) || r.outcome.Refused?))
  {
    hide OpenAndSeed, HasUnconsumedCode;
    if d.marker.MarkerMissing? {
      if d.envelope.Some? {
        SeedingRefuses(Migrate(d, a), a, Resumed);
      } else {
        SeedingRefuses(d.(envelope := Some(Envelope(a.freshKey, a.passphrase, false))), a, Created);
      }
    }
  }

  /** A database without a key is left alone by every attempt, whatever goes wrong: no key is made for it. */
  lemma UnpairedDatabaseIsLeftAlone(d: Durable, a: Attempt)
    requires d.envelope.None? && d.database.Some?
    ensures Initialize(d, a).state == d && !Succeeds(Initialize(d, a).outcome)
    ensures Initialize(d, a).outcome == Refused(UnpairedDatabase) <==>
            d.marker.MarkerMissing? && !FaultAt(a, AcquireLock) && !FaultAt(a, InspectPaths)
  {
    hide OpenAndSeed;
  }

  /** The store as a completed attempt leaves it: an administrator that was there with a pending code, or one
      that this attempt wrote, with its role and a code it has shown. */
  predicate Seeded(d: Durable, a: Attempt, d': Durable) {
    && d'.database.Some? && d'.database.value.principal && HasUnconsumedCode(d'.database.value)
    && if d.database.Some? && d.database.value.principal
       then d'.database == d.database && d'.printed == d.printed
       else
         var codes := if d.database.Some? then d.database.value.codes else [];
         && d'.database == Some(Database(true, true, codes + [BootstrapCode(a.freshCode, false)]))
         && d'.printed == d.printed + [a.freshCode]
  }

  lemma SeedingSucceeds(d: Durable, a: Attempt, outcome: Outcome)
    requires Succeeds(OpenAndSeed(d, a, outcome).outcome)
    ensures var d' := OpenAndSeed(d, a, outcome).state;
            d'.marker == MarkerComplete && d'.envelope == d.envelope && Seeded(d, a, d')
  {
    var codes := if d.database.Some? then d.database.value.codes else [];
    var db := Database(true, true, codes + [BootstrapCode(a.freshCode, false)]);
    assert !db.codes[|codes|].used;
  }

  /** From any state at all: a success started without a marker and ends with one, over the key that was there
      or, when neither key nor database was, a fresh one under the given passphrase, and over a seeded store. */
  lemma SuccessFromAnyState(d: Durable, a: Attempt)
    requires Succeeds(Initialize(d, a).outcome)
    ensures var r := Initialize(d, a);
            && d.marker == MarkerMissing && r.state.marker == MarkerComplete
            && (r.outcome == Created <==> d.envelope.None? && d.database.None?)
            && (r.outcome == Resumed <==> d.envelope.Some?)
            && r.state.envelope.Some? && r.state.envelope.value.passphrase == a.passphrase
            && r.state.envelope.value.key == (if d.envelope.Some? then d.envelope.value.key else a.freshKey)
            && Seeded(d, a, r.state)
  {
    hide OpenAndSeed, HasUnconsumedCode;
    if d.envelope.Some? {
      SeedingSucceeds(Migrate(d, a), a, Resumed);
      SeedingRefuses(Migrate(d, a), a, Resumed);
    } else {
      var d' := d.(envelope := Some(Envelope(a.freshKey, a.passphrase, false)));
      SeedingSucceeds(d', a, Created);
      SeedingRefuses(d', a, Created);
    }
  }

  predicate HasPrincipal(d: Durable) {
    d.database.Some? && d.database.value.principal
  }

  /** The order of the steps. */
  function Position(step: StepName): nat {
    match step
    case AcquireLock => 0
    case InspectPaths => 1
    case LoadKey => 2
    case MigrateKey => 3
    case GenerateKey => 4
    case CreateKey => 5
    case OpenStore => 6
    case FindPrincipal => 7
    case CreatePrincipal => 8
    case AssignRole => 9
    case GenerateCode => 10
    case CreateCode => 11
    case PrintCode => 12
    case CloseStore => 13
    case CreateMarker => 14
  }

  /** What is durable when a run stops at a step: nothing of the later steps, all of the earlier ones. */
  ghost predicate StoppedInOrder(d: Durable, a: Attempt, d': Durable, step: StepName) {
    var n, db := Position(step), if d.database.Some? then d.database.value else Database(false, false, []);
    && (n < Position(CreateKey) && step != MigrateKey ==> d' == d)
    && (n < Position(OpenStore) ==> d' == d.(envelope := d'.envelope))
    && (n < Position(CreatePrincipal) ==>
          && d' == d.(envelope := d'.envelope, database := d'.database)
          && (d'.database == d.database || (d.database.None? && d'.database == Some(Database(false, false, [])))))
    && (n < Position(CreateMarker) ==> d'.marker == d.marker)
    && (n < Position(PrintCode) ==> d'.printed == d.printed)
    && (n > Position(CreateKey) ==> d'.envelope.Some?)
    && (n > Position(OpenStore) ==> d'.database.Some?)
    && (n > Position(CreatePrincipal) ==> d'.database.value.principal)
    && (n > Position(CreateCode) ==> HasUnconsumedCode(d'.database.value))
    && (HasPrincipal(d) ==> d'.database == d.database && d'.printed == d.printed)
    && (!HasPrincipal(d) && d'.database.Some? ==>
          && (n < Position(AssignRole) ==> d'.database.value.role == db.role)
          && (n > Position(AssignRole) ==> d'.database.value.role)
          && (n < Position(CreateCode) ==> d'.database.value.codes == db.codes)
          && (n > Position(CreateCode) ==> d'.database.value.codes == db.codes + [BootstrapCode(a.freshCode, false)])
          && (n > Position(PrintCode) ==> d'.printed == d.printed + [a.freshCode]))
  }

  lemma CommitStopsInOrder(d: Durable, a: Attempt, outcome: Outcome, step: StepName)
    requires Succeeds(outcome) && Commit(d, a, outcome).outcome == Interrupted(step)
    ensures FaultAt(a, step) && Position(step) >= Position(CloseStore)
    ensures Commit(d, a, outcome).state == d.(marker := Commit(d, a, outcome).state.marker)
    ensures step == CloseStore ==> Commit(d, a, outcome).state == d
  {
  }

  lemma FreshSeedingStopsInOrder(d: Durable, db: Database, a: Attempt, outcome: Outcome, step: StepName)
    requires Succeeds(outcome) && d.database == Some(db) && d.envelope.Some? && !db.principal
    requires SeedFresh(d, db, a, outcome).outcome == Interrupted(step)
    ensures FaultAt(a, step) && Position(step) >= Position(CreatePrincipal)
    ensures SeedFresh(d, db, a, outcome).state.envelope == d.envelope
    ensures StoppedInOrder(d, a, SeedFresh(d, db, a, outcome).state, step)
  {
    hide Commit, HasUnconsumedCode;
    var seeded := Database(true, true, db.codes + [BootstrapCode(a.freshCode, false)]);
    PendingCode(db.codes, a.freshCode);
    var d4 := WithDatabase(d, seeded).(printed := d.printed + [a.freshCode]);
    if Commit(d4, a, outcome).outcome == Interrupted(step) {
      CommitStopsInOrder(d4, a, outcome, step);
    }
  }

  lemma PendingCode(codes: seq<BootstrapCode>, code: Code)
    ensures HasUnconsumedCode(Database(true, true, codes + [BootstrapCode(code, false)]))
  {
    assert !(codes + [BootstrapCode(code, false)])[|codes|].used;
  }

  lemma SeedingStopsInOrder(d: Durable, a: Attempt, outcome: Outcome, step: StepName)
    requires Succeeds(outcome) && OpenAndSeed(d, a, outcome).outcome == Interrupted(step) && d.envelope.Some?
    ensures FaultAt(a, step) && Position(step) >= Position(OpenStore)
    ensures OpenAndSeed(d, a, outcome).state.envelope == d.envelope
    ensures StoppedInOrder(d, a, OpenAndSeed(d, a, outcome).state, step)
  {
    hide Commit, SeedFresh, HasUnconsumedCode;
    var db := if d.database.Some? then d.database.value else Database(false, false, []);
    var d' := WithDatabase(d, db);
    if !db.principal && SeedFresh(d', db, a, outcome).outcome == Interrupted(step) {
      FreshSeedingStopsInOrder(d', db, a, outcome, step);
    } else if db.principal && Commit(d', a, outcome).outcome == Interrupted(step) {
      CommitStopsInOrder(d', a, outcome, step);
    }
  }

  /** The key that an attempt goes on with is no change of the order. */
  lemma StoppedWithItsKey(d: Durable, d': Durable, a: Attempt, after: Durable, step: StepName)
    requires d' == d.(envelope := d'.envelope) && StoppedInOrder(d', a, after, step)
    requires Position(step) >= Position(OpenStore)
    ensures StoppedInOrder(d, a, after, step)
  {
    hide HasUnconsumedCode;
  }

  /** A run that stops at a step, from any state, leaves durable what comes before that step in the order of
      the protocol, and nothing of what comes after it. */
  lemma AttemptStopsInOrder(d: Durable, a: Attempt, step: StepName)
    requires Initialize(d, a).outcome == Interrupted(step)
    ensures FaultAt(a, step) && StoppedInOrder(d, a, Initialize(d, a).state, step)
  {
    hide OpenAndSeed, HasUnconsumedCode;
    if d.marker.MarkerMissing? {
      if d.envelope.Some? {
        var d' := Migrate(d, a);
        if OpenAndSeed(d', a, Resumed).outcome == Interrupted(step) {
          SeedingStopsInOrder(d', a, Resumed, step);
          StoppedWithItsKey(d, d', a, OpenAndSeed(d', a, Resumed).state, step);
          return;
        }
      } else {
        var d' := d.(envelope := Some(Envelope(a.freshKey, a.passphrase, false)));
        if OpenAndSeed(d', a, Created).outcome == Interrupted(step) {
          SeedingStopsInOrder(d', a, Created, step);
          StoppedWithItsKey(d, d', a, OpenAndSeed(d', a, Created).state, step);
          return;
        }
      }
    }
  }

  /** The key can be had: it is there and the passphrase is its own, or neither key nor database is there. */
  predicate KeyAtHand(d: Durable, a: Attempt) {
    if d.envelope.Some? then d.envelope.value.passphrase == a.passphrase else d.database.None?
  }

  /** Whether an attempt gets to a step, when nothing goes wrong before it. */
  predicate GetsTo(d: Durable, a: Attempt, step: StepName) {
    match step
    case AcquireLock => true
    case InspectPaths => true
    case LoadKey => d.marker.MarkerMissing? && d.envelope.Some?
    case MigrateKey => d.marker.MarkerMissing? && d.envelope.Some? && KeyAtHand(d, a) && d.envelope.value.legacy
    case GenerateKey => d.marker.MarkerMissing? && d.envelope.None? && KeyAtHand(d, a)
    case CreateKey => d.marker.MarkerMissing? && d.envelope.None? && KeyAtHand(d, a)
    case OpenStore => d.marker.MarkerMissing? && KeyAtHand(d, a)
    case FindPrincipal => d.marker.MarkerMissing? && KeyAtHand(d, a)
    case CloseStore =>
      d.marker.MarkerMissing? && KeyAtHand(d, a) && (HasPrincipal(d) ==> HasUnconsumedCode(d.database.value))
    case CreateMarker =>
      d.marker.MarkerMissing? && KeyAtHand(d, a) && (HasPrincipal(d) ==> HasUnconsumedCode(d.database.value))
    case _ => d.marker.MarkerMissing? && KeyAtHand(d, a) && !HasPrincipal(d)
  }

  /** An attempt in which nothing goes wrong. */
  function Undisturbed(a: Attempt): Attempt {
    a.(fault := NoFault)
  }

  lemma SeedingStopsExactly(d: Durable, a: Attempt, outcome: Outcome, step: StepName)
    requires Succeeds(outcome) && FaultAt(a, step)
    ensures var r, clean := OpenAndSeed(d, a, outcome), OpenAndSeed(d, Undisturbed(a), outcome);
            var pending := HasPrincipal(d) ==> HasUnconsumedCode(d.database.value);
            if || step in {OpenStore, FindPrincipal} || (step in {CloseStore, CreateMarker} && pending)
               || (step in {CreatePrincipal, AssignRole, GenerateCode, CreateCode, PrintCode} && !HasPrincipal(d))
            then r.outcome == Interrupted(step) else r == clean
  {
    hide HasUnconsumedCode;
  }

  /** A fault stops an attempt exactly if the attempt gets to that step; one it does not get to is as if there
      were none. A failed migration of a legacy envelope is no exception that stops anything: only a crash is. */
  lemma FaultStopsExactly(d: Durable, a: Attempt, step: StepName)
    requires FaultAt(a, step)
    ensures var r, clean := Initialize(d, a), Initialize(d, Undisturbed(a));
            if GetsTo(d, a, step) && (step == MigrateKey ==> a.fault.crash) then r.outcome == Interrupted(step)
            else
              && r.outcome == clean.outcome && r.state == clean.state.(envelope := r.state.envelope)
              && (step != MigrateKey ==> r.state == clean.state)
  {
    hide OpenAndSeed, HasUnconsumedCode;
    if d.marker.MarkerMissing? && KeyAtHand(d, a) {
      if d.envelope.None? {
        SeedingStopsExactly(d.(envelope := Some(Envelope(a.freshKey, a.passphrase, false))), a, Created, step);
      } else if step == MigrateKey {
        SeedingIgnoresTheEnvelope(Migrate(d, a), Migrate(d, Undisturbed(a)), a, Resumed);
      } else {
        SeedingStopsExactly(Migrate(d, a), a, Resumed, step);
      }
    }
  }

  /** A legacy envelope is re-protected by every attempt that gets so far, whatever becomes of the attempt, unless
      the migration itself fails. */
  lemma MigrationHappensExactly(d: Durable, a: Attempt)
    requires d.envelope.Some? && d.envelope.value.legacy
    ensures Initialize(d, a).state.envelope.Some?
    ensures Initialize(d, a).state.envelope.value.legacy <==>
            || !GetsTo(d, a, MigrateKey) || FaultAt(a, AcquireLock) || FaultAt(a, InspectPaths) || FaultAt(a, LoadKey)
            || (FaultAt(a, MigrateKey) && !a.fault.progress.Whole?)
  {
    hide OpenAndSeed;
    SeedingKeepsTheKey(Migrate(d, a), a, Resumed);
  }

  lemma SeedingIgnoresTheEnvelope(d: Durable, d': Durable, a: Attempt, outcome: Outcome)
    requires d' == d.(envelope := d'.envelope) && FaultAt(a, MigrateKey) && Succeeds(outcome)
    ensures var r, r' := OpenAndSeed(d, a, outcome), OpenAndSeed(d', Undisturbed(a), outcome);
            r.outcome == r'.outcome && r.state == r'.state.(envelope := r.state.envelope)
  {
    hide HasUnconsumedCode, Commit, SeedFresh;
    var db := if d.database.Some? then d.database.value else Database(false, false, []);
    var seeded := Database(true, true, db.codes + [BootstrapCode(a.freshCode, false)]);
    var shown := d.printed + [a.freshCode];
    CommitIgnoresTheEnvelope(WithDatabase(d, db), WithDatabase(d', db), a, outcome);
    CommitIgnoresTheEnvelope(WithDatabase(d, seeded).(printed := shown), WithDatabase(d', seeded).(printed := shown),
                             a, outcome);
    FreshSeeding(WithDatabase(d, db), db, a, outcome);
    FreshSeeding(WithDatabase(d', db), db, Undisturbed(a), outcome);
  }

  lemma CommitIgnoresTheEnvelope(d: Durable, d': Durable, a: Attempt, outcome: Outcome)
    requires d' == d.(envelope := d'.envelope) && FaultAt(a, MigrateKey)
    ensures var r, r' := Commit(d, a, outcome), Commit(d', Undisturbed(a), outcome);
            r.outcome == r'.outcome && r.state == r'.state.(envelope := r.state.envelope)
  {
  }

  /** A first seeding that no fault of its own stops goes on to the marker. */
  lemma FreshSeeding(d: Durable, db: Database, a: Attempt, outcome: Outcome)
    requires a.fault.NoFault? || FaultAt(a, MigrateKey)
    ensures var seeded := Database(true, true, db.codes + [BootstrapCode(a.freshCode, false)]);
            SeedFresh(d, db, a, outcome)
            == Commit(WithDatabase(d, seeded).(printed := d.printed + [a.freshCode]), a, outcome)
  {
    hide Commit;
  }

  // ----- The program's form: one object whose durable fields change statement by statement -----

  class Instance {
    var envelope: Option<Envelope>
    var database: Option<Database>
    var marker: Marker
    var printed: seq<Code>

    function State(): Durable
      reads this
    {
      Durable(envelope, database, marker, printed)
    }

    /** Whether `step` goes wrong here; when it does, whether its effect is there anyway. */
    static method Hits(a: Attempt, step: StepName) returns (hit: bool, landed: bool)
      ensures hit == FaultAt(a, step) && landed == (hit ==> a.fault.progress.Whole?)
    {
      hit := a.fault.Fault? && a.fault.step == step;
      landed := !hit || a.fault.progress.Whole?;
    }

    /** The four writes of a first seeding. A failure between two of them leaves the earlier ones. */
    method WriteAdministrator(a: Attempt) returns (failure: Option<Outcome>)
      requires database.Some?
      modifies `database, `printed
      ensures forall outcome ::
                SeedFresh(old(State()), old(database.value), a, outcome) ==
                if failure.Some? then Run(State(), failure.value) else Commit(State(), a, outcome)
    {
      hide Commit;
      var db := database.value;
      var hit, landed := Hits(a, CreatePrincipal);
      if landed { database := Some(db.(principal := true)); }
      if hit { return Some(Interrupted(CreatePrincipal)); }

      hit, landed := Hits(a, AssignRole);
      if landed { database := Some(db.(principal := true, role := true)); }
      if hit { return Some(Interrupted(AssignRole)); }

      hit, landed := Hits(a, GenerateCode);
      if hit { return Some(Interrupted(GenerateCode)); }

      hit, landed := Hits(a, CreateCode);
      if landed { database := Some(Database(true, true, db.codes + [BootstrapCode(a.freshCode, false)])); }
      if hit { return Some(Interrupted(CreateCode)); }

      hit, landed := Hits(a, PrintCode);
      if landed { printed := printed + [a.freshCode]; }
      if hit { return Some(Interrupted(PrintCode)); }
      return None;
    }

    /** Seeds the administrator, the role and the one-time code, and prints the code, unless that was done
        before. */
    method SeedBootstrapAdministrator(a: Attempt) returns (failure: Option<Outcome>)
      requires database.Some?
      modifies `database, `printed
      ensures forall outcome ::
                Seed(old(State()), old(database.value), a, outcome) ==
                if failure.Some? then Run(State(), failure.value) else Commit(State(), a, outcome)
    {
      hide Commit, SeedFresh;
      var hit, landed := Hits(a, FindPrincipal);
      if hit {
        return Some(Interrupted(FindPrincipal));
      }
      var db := database.value;
      if db.principal {
        var pending := HasUnconsumedCode(db);
        return if pending then None else Some(Refused(InconsistentSeeding));
      }
      ghost var before := State();
      failure := WriteAdministrator(a);
      assert forall outcome :: Seed(before, db, a, outcome) == SeedFresh(before, db, a, outcome);
    }

    /** Recovers the key with the passphrase, or creates it when neither key nor database is there. */
    method RecoverOrCreateKey(a: Attempt) returns (stop: Option<Outcome>, success: Outcome)
      requires marker == MarkerMissing && !FaultAt(a, AcquireLock) && !FaultAt(a, InspectPaths)
      modifies `envelope
      ensures Initialize(old(State()), a)
           == if stop.Some? then Run(State(), stop.value) else OpenAndSeed(State(), a, success)
      ensures old(envelope).None? && old(database).Some? ==>
                stop == Some(Refused(UnpairedDatabase)) && State() == old(State())
    {
      hide OpenAndSeed;
      var hit, landed;
      success := Created;
      if envelope.Some? {
        hit, landed := Hits(a, LoadKey);
        if hit { return Some(Interrupted(LoadKey)), success; }
        var protected := envelope.value;
        if a.passphrase != protected.passphrase { return Some(Refused(WrongPassphrase)), success; }
        if protected.legacy {
          hit, landed := Hits(a, MigrateKey);
          if landed { envelope := Some(protected.(legacy := false)); }
          // A failed migration is only warned about; a crash is a crash.
          if hit && a.fault.crash { return Some(Interrupted(MigrateKey)), success; }
        }
        return None, Resumed;
      }
      if database.Some? { return Some(Refused(UnpairedDatabase)), success; }
      hit, landed := Hits(a, GenerateKey);
      if hit { return Some(Interrupted(GenerateKey)), success; }
      hit, landed := Hits(a, CreateKey);
      if landed { envelope := Some(Envelope(a.freshKey, a.passphrase, false)); }
      if hit { return Some(Interrupted(CreateKey)), success; }
      return None, success;
    }

    /** Closes the store and writes the completion marker. */
    method CloseAndCommit(a: Attempt, success: Outcome) returns (outcome: Outcome)
      requires marker == MarkerMissing
      modifies `marker
      ensures Run(State(), outcome) == Commit(old(State()), a, success)
    {
      var hit, landed := Hits(a, CloseStore);
      if hit { return Interrupted(CloseStore); }
      hit, landed := Hits(a, CreateMarker);
      if hit {
        marker := if landed then MarkerComplete else if a.fault.progress.Partial? then MarkerTorn else MarkerMissing;
        return Interrupted(CreateMarker);
      }
      marker := MarkerComplete;
      return success;
    }

    /** The whole initialization: check the marker, recover or create the key, open and seed the
        database, and write the marker last. */
    method InitializeStandalone(a: Attempt) returns (outcome: Outcome)
      modifies this
      ensures Run(State(), outcome) == Initialize(old(State()), a)
      ensures old(envelope).None? && old(database).Some? ==> State() == old(State()) && !Succeeds(outcome)
      ensures outcome.Refused? ==> Hinders(old(State()), a, outcome.why)
      ensures Succeeds(outcome) ==> marker == MarkerComplete && Seeded(old(State()), a, State())
      ensures outcome.Interrupted? ==> StoppedInOrder(old(State()), a, State(), outcome.step)
    {
      AttemptTells(State(), a);
      hide Seed, Commit, Hinders, Seeded, StoppedInOrder;
      var hit, landed := Hits(a, AcquireLock);
      if hit { return Interrupted(AcquireLock); }
      hit, landed := Hits(a, InspectPaths);
      if hit { return Interrupted(InspectPaths); }
      if marker == MarkerTorn { return Refused(UnreadableMarker); }
      if marker == MarkerComplete {
        return if envelope.Some? && database.Some? then Refused(AlreadyInitialized)
               else Refused(IncompleteInstance(envelope.None?, database.None?));
      }
      var stop, success := RecoverOrCreateKey(a);
      if stop.Some? { return stop.value; }
      ghost var unopened := State();
      hit, landed := Hits(a, OpenStore);
      if landed && database.None? { database := Some(Database(false, false, [])); }
      if hit { return Interrupted(OpenStore); }
      assert OpenAndSeed(unopened, a, success) == Seed(State(), database.value, a, success);
      var failure := SeedBootstrapAdministrator(a);
      if failure.Some? { return failure.value; }
      outcome := CloseAndCommit(a, success);
    }
  }

  /** The three ways an attempt can end, in one. */
  lemma AttemptTells(d: Durable, a: Attempt)
    ensures var r := Initialize(d, a);
            && (d.envelope.None? && d.database.Some? ==> r.state == d && !Succeeds(r.outcome))
            && (r.outcome.Refused? ==> Hinders(d, a, r.outcome.why))
            && (Succeeds(r.outcome) ==> r.state.marker == MarkerComplete && Seeded(d, a, r.state))
            && (r.outcome.Interrupted? ==> StoppedInOrder(d, a, r.state, r.outcome.step))
  {
    hide Initialize, Hinders, Seeded, StoppedInOrder;
    match Initialize(d, a).outcome {
      case Refused(why) => RefusedExactly(d, a, why);
      case Interrupted(step) => AttemptStopsInOrder(d, a, step);
      case _ => SuccessFromAnyState(d, a);
    }
    if d.envelope.None? && d.database.Some? {
      UnpairedDatabaseIsLeftAlone(d, a);
    }
  }

  // ----- Any history of attempts, from an empty directory -----

  function Replay(h: seq<Attempt>): Durable {
    if h == [] then EMPTY else Initialize(Replay(h[..|h| - 1]), h[|h| - 1]).state
  }

  /** The outcome of attempt `k` of a history. */
  function OutcomeAt(h: seq<Attempt>, k: nat): Outcome
    requires k < |h|
  {
    Initialize(Replay(h[..k]), h[k]).outcome
  }

  /** What the directory can look like between attempts. */
  ghost predicate Reachable(d: Durable) {
    && (d.database.Some? ==> d.envelope.Some?)
    && (d.database.Some? ==>
          var db := d.database.value;
          && |db.codes| <= 1
          && (forall k | 0 <= k < |db.codes| :: !db.codes[k].used)
          && (db.role ==> db.principal)
          && (db.codes != [] ==> db.role))
    && (d.marker != MarkerMissing ==>
          && d.envelope.Some? && d.database.Some?
          && d.database.value.principal && d.database.value.role && |d.database.value.codes| == 1)
    && (d.printed != [] ==>
          d.database.Some? && |d.database.value.codes| == 1 && d.printed == [d.database.value.codes[0].raw])
    && (d.envelope.Some? ==> !d.envelope.value.legacy)
  }

  /** From one attempt to the next nothing durable is lost or replaced. */
  ghost predicate Grows(d: Durable, d': Durable) {
    && (d.envelope.Some? ==> d'.envelope.Some? && d'.envelope.value.key == d.envelope.value.key
                             && d'.envelope.value.passphrase == d.envelope.value.passphrase)
    && (d.database.Some? ==>
          && d'.database.Some?
          && (d.database.value.principal ==> d'.database.value.principal)
          && (d.database.value.codes != [] ==> d'.database.value.codes == d.database.value.codes))
    && (d.marker != MarkerMissing ==> d' == d)
    && (d.printed != [] ==> d'.printed == d.printed)
  }

  lemma CommitKeepsReachable(d: Durable, a: Attempt, outcome: Outcome)
    requires Reachable(d) && d.database.Some? && d.database.value.codes != [] && d.marker == MarkerMissing
    requires Succeeds(outcome)
    ensures var r := Commit(d, a, outcome);
            Reachable(r.state) && Grows(d, r.state) && (Succeeds(r.outcome) ==> r.state.marker == MarkerComplete)
  {
  }

  lemma SeedFreshKeepsReachable(d: Durable, db: Database, a: Attempt, outcome: Outcome)
    requires Reachable(d) && d.database == Some(db) && !db.principal && d.marker == MarkerMissing && Succeeds(outcome)
    ensures var r := SeedFresh(d, db, a, outcome);
            Reachable(r.state) && Grows(d, r.state) && (Succeeds(r.outcome) ==> r.state.marker == MarkerComplete)
  {
    hide Commit;
    assert db.codes == [] && d.printed == [];
    assert db.codes + [BootstrapCode(a.freshCode, false)] == [BootstrapCode(a.freshCode, false)];
    assert d.printed + [a.freshCode] == [a.freshCode];
    var d4 := WithDatabase(d, Database(true, true, [BootstrapCode(a.freshCode, false)])).(printed := [a.freshCode]);
    CommitKeepsReachable(d4, a, outcome);
    GrowsTransitive(d, d4, Commit(d4, a, outcome).state);
  }

  lemma SeedKeepsReachable(d: Durable, a: Attempt, outcome: Outcome)
    requires Reachable(d) && d.envelope.Some? && d.marker == MarkerMissing && Succeeds(outcome)
    ensures var r := OpenAndSeed(d, a, outcome);
            Reachable(r.state) && Grows(d, r.state) && (Succeeds(r.outcome) ==> r.state.marker == MarkerComplete)
  {
    hide Commit, SeedFresh;
    var db := if d.database.Some? then d.database.value else Database(false, false, []);
    var d' := WithDatabase(d, db);
    if !db.principal {
      SeedFreshKeepsReachable(d', db, a, outcome);
      GrowsTransitive(d, d', SeedFresh(d', db, a, outcome).state);
    } else if HasUnconsumedCode(db) {
      CommitKeepsReachable(d', a, outcome);
    }
  }

  lemma AttemptKeepsReachable(d: Durable, a: Attempt)
    requires Reachable(d)
    ensures Reachable(Initialize(d, a).state) && Grows(d, Initialize(d, a).state)
    ensures Succeeds(Initialize(d, a).outcome) ==>
              d.marker == MarkerMissing && Initialize(d, a).state.marker == MarkerComplete
  {
    hide OpenAndSeed;
    if d.marker == MarkerMissing {
      if d.envelope.Some? {
        SeedKeepsReachable(d, a, Resumed);
      } else {
        var d' := d.(envelope := Some(Envelope(a.freshKey, a.passphrase, false)));
        SeedKeepsReachable(d', a, Created);
      }
    }
  }

  lemma GrowsTransitive(a: Durable, b: Durable, c: Durable)
    requires Grows(a, b) && Grows(b, c)
    ensures Grows(a, c)
  {
  }

  /** After any history the marker implies the key, the database, the administrator, its role and
      exactly one unconsumed code; the database implies the key; and from every earlier point of
      the history on, the key is the same, and a stored or printed code is the only one ever. */
  lemma {:induction false} EveryHistoryIsSound(h: seq<Attempt>, k: nat)
    requires k <= |h|
    ensures Reachable(Replay(h)) && Grows(Replay(h[..k]), Replay(h))
    decreases |h|
  {
    if k == |h| {
      assert h[..k] == h;
      if h != [] {
        EveryHistoryIsSound(h[..|h| - 1], 0);
        AttemptKeepsReachable(Replay(h[..|h| - 1]), h[|h| - 1]);
      }
    } else {
      EveryHistoryIsSound(h[..|h| - 1], k);
      assert h[..|h| - 1][..k] == h[..k];
      AttemptKeepsReachable(Replay(h[..|h| - 1]), h[|h| - 1]);
      GrowsTransitive(Replay(h[..k]), Replay(h[..|h| - 1]), Replay(h));
    }
  }

  /** At most one attempt of any history succeeds. */
  lemma AtMostOneSuccess(h: seq<Attempt>, i: nat, j: nat)
    requires i < j < |h| && Succeeds(OutcomeAt(h, i))
    ensures !Succeeds(OutcomeAt(h, j))
  {
    hide Initialize, Reachable;
    EveryHistoryIsSound(h[..i], 0);
    AttemptKeepsReachable(Replay(h[..i]), h[i]);
    assert h[..i + 1][..i] == h[..i];
    assert h[..j][..i + 1] == h[..i + 1];
    EveryHistoryIsSound(h[..j], i + 1);
    AttemptKeepsReachable(Replay(h[..j]), h[j]);
  }

  /** The state that can never be resumed: the administrator was written and its code was not. */
  predicate SeededWithoutCode(d: Durable) {
    d.database.Some? && d.database.value.principal && d.database.value.codes == []
  }

  /** From any reachable state before the completion, a rerun without faults and with the original
      passphrase succeeds if and only if the marker was not cut short and the store is not in the
      seeded-without-code state. */
  lemma RecoverableExactly(d: Durable, a: Attempt)
    requires Reachable(d) && d.marker != MarkerComplete && a.fault.NoFault?
    requires d.envelope.Some? ==> a.passphrase == d.envelope.value.passphrase
    ensures Succeeds(Initialize(d, a).outcome) <==> d.marker == MarkerMissing && !SeededWithoutCode(d)
  {
    if d.database.Some? && d.database.value.principal && d.database.value.codes != [] {
      assert !d.database.value.codes[0].used;
      assert HasUnconsumedCode(d.database.value);
    }
  }

  lemma DeadStateStaysDead(d: Durable, a: Attempt)
    requires Reachable(d) && (SeededWithoutCode(d) || d.marker == MarkerTorn)
    ensures var r := Initialize(d, a);
            (SeededWithoutCode(r.state) || r.state.marker == MarkerTorn) && !Succeeds(r.outcome)
  {
    hide SeedFresh, Commit;
  }

  /** Both dead states refuse forever: no later attempt, whatever its passphrase and faults, gets
      out of them or succeeds. */
  lemma {:induction false} DeadStatesStayDead(h: seq<Attempt>, more: seq<Attempt>)
    requires SeededWithoutCode(Replay(h)) || Replay(h).marker == MarkerTorn
    ensures SeededWithoutCode(Replay(h + more)) || Replay(h + more).marker == MarkerTorn
    ensures more != [] ==> !Succeeds(OutcomeAt(h + more, |h + more| - 1))
    decreases |more|
  {
    hide Initialize, SeededWithoutCode, Reachable, Grows;
    if more == [] {
      assert h + more == h;
    } else {
      var rest := more[..|more| - 1];
      assert (h + more)[..|h + more| - 1] == h + rest;
      DeadStatesStayDead(h, rest);
      EveryHistoryIsSound(h + rest, 0);
      DeadStateStaysDead(Replay(h + rest), more[|more| - 1]);
    }
  }

  /** When a key exists, an attempt with a wrong passphrase changes nothing at all. */
  lemma WrongPassphraseChangesNothing(d: Durable, a: Attempt)
    requires d.envelope.Some? && a.passphrase != d.envelope.value.passphrase
    ensures Initialize(d, a).state == d && !Succeeds(Initialize(d, a).outcome)
  {
  }

  lemma SeedingKeepsTheKey(d: Durable, a: Attempt, outcome: Outcome)
    ensures OpenAndSeed(d, a, outcome).state.envelope == d.envelope
  {
  }

  /** The legacy migration keeps the key and the passphrase of the envelope, whatever happens. */
  lemma MigrationKeepsTheKey(d: Durable, a: Attempt)
    requires d.envelope.Some?
    ensures var e' := Initialize(d, a).state.envelope;
            e'.Some? && e'.value.key == d.envelope.value.key && e'.value.passphrase == d.envelope.value.passphrase
  {
    hide OpenAndSeed;
    SeedingKeepsTheKey(Migrate(d, a), a, Resumed);
  }

  predicate StoresCode(d: Durable) {
    d.database.Some? && d.database.value.codes != []
  }

  /** What one attempt does to the code: shows a code it stores unless it stops in between, and leaves a
      stored one alone. */
  predicate ShowsItsCode(d: Durable, a: Attempt, d': Durable) {
    && (StoresCode(d) ==> d'.printed == d.printed)
    && (!StoresCode(d) && StoresCode(d') ==>
          (d'.printed == [a.freshCode] <==>
           !FaultAt(a, CreateCode) && (FaultAt(a, PrintCode) ==> a.fault.progress.Whole?)))
  }

  lemma SeedFreshShowsItsCode(d: Durable, db: Database, a: Attempt, outcome: Outcome)
    requires d.database == Some(db) && db.codes == [] && d.printed == []
    ensures ShowsItsCode(d, a, SeedFresh(d, db, a, outcome).state)
  {
    assert d.printed + [a.freshCode] == [a.freshCode];
  }

  lemma SeedingShowsItsCode(d: Durable, a: Attempt, outcome: Outcome)
    requires Reachable(d)
    ensures ShowsItsCode(d, a, OpenAndSeed(d, a, outcome).state)
  {
    hide SeedFresh;
    var db := if d.database.Some? then d.database.value else Database(false, false, []);
    if !db.principal {
      SeedFreshShowsItsCode(WithDatabase(d, db), db, a, outcome);
    }
  }

  /** The attempt that stores the code shows it to the operator unless it stops after the code is
      durable and before it is printed; no later attempt ever shows it. */
  lemma CodeIsShownExactly(d: Durable, a: Attempt)
    requires Reachable(d)
    ensures var d' := Initialize(d, a).state;
            && (StoresCode(d) ==> d'.printed == d.printed)
            && (!StoresCode(d) && StoresCode(d') ==>
                  (d'.printed == [a.freshCode] <==>
                   !FaultAt(a, CreateCode) && (FaultAt(a, PrintCode) ==> a.fault.progress.Whole?)))
  {
    hide OpenAndSeed;
    SeedingShowsItsCode(d, a, Resumed);
    SeedingShowsItsCode(d.(envelope := Some(Envelope(a.freshKey, a.passphrase, false))), a, Created);
  }

  /** A first attempt that gets as far as seeding. */
  lemma FirstAttempt(a: Attempt)
    requires a.fault.Fault? && a.fault.step in {AssignRole, PrintCode, CreateMarker}
    ensures Initialize(EMPTY, a)
         == SeedFresh(Durable(Some(Envelope(a.freshKey, a.passphrase, false)), Some(Database(false, false, [])),
                              MarkerMissing, []),
                      Database(false, false, []), a, Created)
  {
    hide SeedFresh;
  }

  lemma StoppedBeforePrinting(p: Passphrase, key: Key, code: Code)
    ensures Initialize(EMPTY, Attempt(p, key, code, Fault(PrintCode, Nothing, true))).state
         == Durable(Some(Envelope(key, p, false)), Some(Database(true, true, [BootstrapCode(code, false)])),
                    MarkerMissing, [])
  {
    hide Initialize;
    FirstAttempt(Attempt(p, key, code, Fault(PrintCode, Nothing, true)));
    assert [] + [BootstrapCode(code, false)] == [BootstrapCode(code, false)];
  }

  lemma RerunWithStoredCode(p: Passphrase, key: Key, code: Code)
    ensures var stored := Some(Database(true, true, [BootstrapCode(code, false)]));
            var before := Durable(Some(Envelope(key, p, false)), stored, MarkerMissing, []);
            Initialize(before, Attempt(p, key, code, NoFault)) == Run(before.(marker := MarkerComplete), Resumed)
  {
    var stored := Database(true, true, [BootstrapCode(code, false)]);
    assert !stored.codes[0].used;
    assert HasUnconsumedCode(stored);
  }

  /** So an instance can complete with a code nobody was ever shown: stop one attempt right before
      the print, and rerun. */
  lemma CompletedInstanceWithUnseenCode(p: Passphrase, key: Key, code: Code)
    ensures var h := [Attempt(p, key, code, Fault(PrintCode, Nothing, true)), Attempt(p, key, code, NoFault)];
            && OutcomeAt(h, 1) == Resumed && Replay(h).marker == MarkerComplete
            && Replay(h).printed == [] && |Replay(h).database.value.codes| == 1
  {
    hide Initialize;
    var a0, a1 := Attempt(p, key, code, Fault(PrintCode, Nothing, true)), Attempt(p, key, code, NoFault);
    StoppedBeforePrinting(p, key, code);
    RerunWithStoredCode(p, key, code);
    var h := [a0, a1];
    assert h[..1] == [a0] && [a0][..0] == [];
    assert Replay([a0]) == Initialize(EMPTY, a0).state;
    assert Replay(h) == Initialize(Replay([a0]), a1).state;
  }

  lemma StoppedBeforeTheRole(p: Passphrase, key: Key, code: Code)
    ensures SeededWithoutCode(Initialize(EMPTY, Attempt(p, key, code, Fault(AssignRole, Nothing, true))).state)
  {
    hide Initialize;
    FirstAttempt(Attempt(p, key, code, Fault(AssignRole, Nothing, true)));
  }

  lemma StoppedInsideTheMarker(p: Passphrase, key: Key, code: Code)
    ensures Initialize(EMPTY, Attempt(p, key, code, Fault(CreateMarker, Partial, true))).state.marker == MarkerTorn
  {
    hide Initialize;
    FirstAttempt(Attempt(p, key, code, Fault(CreateMarker, Partial, true)));
  }

  /** Both dead states are reached: stop one attempt between the principal and its role, or in the middle of
      writing the marker. */
  lemma DeadStatesAreReached(p: Passphrase, key: Key, code: Code)
    ensures SeededWithoutCode(Replay([Attempt(p, key, code, Fault(AssignRole, Nothing, true))]))
    ensures Replay([Attempt(p, key, code, Fault(CreateMarker, Partial, true))]).marker == MarkerTorn
  {
    hide Initialize, SeededWithoutCode;
    StoppedBeforeTheRole(p, key, code);
    StoppedInsideTheMarker(p, key, code);
    var unseeded := [Attempt(p, key, code, Fault(AssignRole, Nothing, true))];
    var torn := [Attempt(p, key, code, Fault(CreateMarker, Partial, true))];
    assert unseeded[..0] == [] && torn[..0] == [];
    assert Replay(unseeded) == Initialize(EMPTY, unseeded[0]).state;
    assert Replay(torn) == Initialize(EMPTY, torn[0]).state;
  }
}
