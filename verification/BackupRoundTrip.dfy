/** Creating a backup, and what restoring it later brings back. */
module BackupRoundTrip {
  import opened Wrappers

  import opened DataDirectory
  import opened BackupPackage
  import opened RestoreSteps
  import opened BackupRestore
  import opened PendingMarker

  // ----- Creating a backup -----

  /** The database and its log as the backup reads them. */
  function SnapshotTaken(env: Platform, nodes: Nodes, data: Path): Option<Snapshot> {
    match FileAt(nodes, PathOf(env, data, DatabaseFile))
    case None => None
    case Some(database) => Some(Snapshot(database, NonEmpty(FileAt(nodes, PathOf(env, data, WalFile)))))
  }

  datatype Backup = Backup(key: Key, snapshot: Snapshot, files: Files)

  /** What a backup of this data directory holds, and the key it is sealed with. */
  function BackupOf(env: Platform, readable: Path -> bool, nodes: Nodes, data: Path, running: bool, unlock: Envelope)
    : Outcome<Backup>
  {
    match StoppedInstance(env, nodes, data, running)
    case Err(e) => Err(e)
    case Crash => Crash
    case Ok(_) =>
      match SnapshotTaken(env, nodes, data)
      case None => Err(ReadSnapshot)
      case Some(snapshot) =>
        match InstanceKey(env, nodes, data, unlock)
        case Err(e) => Err(e)
        case Crash => Crash
        case Ok(key) =>
          match Collected(env, readable, nodes, data, env.rows(snapshot))
          case Err(e) => Err(e)
          case Crash => Crash
          case Ok(files) =>
            if |Entries(env, snapshot, files)| > MAX_ENTRIES then Err(InvalidPackage)
            else Ok(Backup(key, snapshot, files))
  }

  /** The artifact is the first of the listed ones that cannot be read. */
  ghost predicate FailsFirst(env: Platform, readable: Path -> bool, nodes: Nodes, data: Path, rows: seq<Row>, id: Uuid)
  {
    exists k | 0 <= k < |rows| :: FirstToFail(env, readable, nodes, data, rows, k) && rows[k].id == id
  }

  /** Why a backup is refused: each cause by itself. */
  ghost predicate BackupRefuses(env: Platform, readable: Path -> bool, nodes: Nodes, data: Path, running: bool,
                                unlock: Envelope, e: BackupError)
  {
    var snapshot := SnapshotTaken(env, nodes, data);
    var rows := if snapshot.Some? then env.rows(snapshot.value) else None;
    var files := if snapshot.Some? then Collected(env, readable, nodes, data, rows) else Crash;
    match e
    case ReadSnapshot => snapshot.None?
    case ReadState(path) =>
      || (path == PathOf(env, data, MarkerFile) && !Read(nodes, readable, path).Bytes?)
      || TlsFails(env, readable, nodes, data, path)
    case ListArtifacts => snapshot.Some? && rows.None?
    case ReadArtifact(id) =>
      rows.Some? && FailsFirst(env, readable, nodes, data, Listed(rows.value), id)
    case InvalidPackage =>
      files.Ok? && 1 + Count(snapshot.value.wal) + RestoredCount(files.value) > MAX_ENTRIES
    case _ => InstanceRefuses(env, nodes, data, running, unlock, e)
  }

  /** The order in which a backup finds the causes. */
  function BackupOrder(env: Platform, data: Path, e: BackupError): nat {
    match e
    case RuntimeLock => 0
    case NotInitialized => 1
    case Marker => 2
    case ReadSnapshot => 3
    case MasterKeyFile => 4
    case MasterKeyProtection => 5
    case ReadState(path) => if path == PathOf(env, data, MarkerFile) then 6 else 7
    case ListArtifacts => 8
    case ReadArtifact(_) => 9
    case InvalidPackage => 10
    case _ => 11
  }

  lemma CollectedRefuses(env: Platform, readable: Path -> bool, nodes: Nodes, data: Path, rows: Option<seq<Row>>)
    ensures match Collected(env, readable, nodes, data, rows)
            case Ok(_) =>
              && Read(nodes, readable, PathOf(env, data, MarkerFile)).Bytes?
              && (forall p :: !TlsFails(env, readable, nodes, data, p))
              && rows.Some? && NoneFails(env, readable, nodes, data, Listed(rows.value))
            case Err(ReadState(path)) =>
              if !Read(nodes, readable, PathOf(env, data, MarkerFile)).Bytes? then path == PathOf(env, data, MarkerFile)
              else TlsFails(env, readable, nodes, data, path) && path != PathOf(env, data, MarkerFile)
            case Err(ListArtifacts) =>
              && Read(nodes, readable, PathOf(env, data, MarkerFile)).Bytes?
              && (forall p :: !TlsFails(env, readable, nodes, data, p)) && rows.None?
            case Err(ReadArtifact(id)) =>
              && Read(nodes, readable, PathOf(env, data, MarkerFile)).Bytes?
              && (forall p :: !TlsFails(env, readable, nodes, data, p))
              && rows.Some? && FailsFirst(env, readable, nodes, data, Listed(rows.value), id)
            case _ => false
    ensures !TlsFails(env, readable, nodes, data, PathOf(env, data, MarkerFile))
  {
    TlsExactly(env, readable, nodes, data);
    MarkerIsNoTlsFile(env, data);
    hide PathOf, CollectedTls, CollectedArtifacts, TlsFails, Listed, FirstToFail, NoneFails, CollectedKey;
    TlsFailsAtTlsFiles(env, readable, nodes, data, PathOf(env, data, MarkerFile));
    if rows.Some? {
      ArtifactsStopExactly(env, readable, nodes, data, Listed(rows.value));
    }
  }

  lemma TlsFailsAtTlsFiles(env: Platform, readable: Path -> bool, nodes: Nodes, data: Path, p: Path)
    ensures TlsFails(env, readable, nodes, data, p) ==>
              p == PathOf(env, data, CertificateFile) || p == PathOf(env, data, PrivateKeyFile)
  {
    hide PathOf;
  }

  lemma MarkerIsNoTlsFile(env: Platform, data: Path)
    ensures PathOf(env, data, MarkerFile) != PathOf(env, data, CertificateFile)
    ensures PathOf(env, data, MarkerFile) != PathOf(env, data, PrivateKeyFile)
  {
  }

  /** A backup is refused for the first of its causes, and made exactly when there is none. */
  lemma BackupRefusedForTheFirstCause(env: Platform, readable: Path -> bool, nodes: Nodes, data: Path, running: bool,
                                      unlock: Envelope)
    requires Lawful(env)
    ensures var backup := BackupOf(env, readable, nodes, data, running, unlock);
            && !backup.Crash?
            && (backup.Ok? <==> forall e :: !BackupRefuses(env, readable, nodes, data, running, unlock, e))
            && (backup.Err? ==>
                  && BackupRefuses(env, readable, nodes, data, running, unlock, backup.error)
                  && forall e | BackupOrder(env, data, e) < BackupOrder(env, data, backup.error) ::
                       !BackupRefuses(env, readable, nodes, data, running, unlock, e))
  {
    hide PathOf, FileAt, Entries, TlsFails, Listed, FirstToFail, NoneFails, Lawful, RestoredCount, Collected;
    hide FailsFirst;
    var backup := BackupOf(env, readable, nodes, data, running, unlock);
    var snapshot := SnapshotTaken(env, nodes, data);
    if snapshot.Some? {
      CollectedRefuses(env, readable, nodes, data, env.rows(snapshot.value));
      var files := Collected(env, readable, nodes, data, env.rows(snapshot.value));
      if files.Ok? {
        CollectedFilesAreUnique(env, readable, nodes, data, env.rows(snapshot.value));
        PackageEntriesAddUp(env, snapshot.value, files.value);
        NoneIsFirst(env, readable, nodes, data, Listed(env.rows(snapshot.value).value));
      }
    }
    if backup.Err? {
      assert BackupRefuses(env, readable, nodes, data, running, unlock, backup.error);
    } else {
      forall e ensures !BackupRefuses(env, readable, nodes, data, running, unlock, e) {
      }
    }
  }

  lemma NoneIsFirst(env: Platform, readable: Path -> bool, nodes: Nodes, data: Path, rows: seq<Row>)
    requires NoneFails(env, readable, nodes, data, rows)
    ensures forall id :: !FailsFirst(env, readable, nodes, data, rows, id)
  {
  }

  function Sealed(env: Platform, b: Backup): Bytes {
    env.seal(b.key, Package(env.version, env.schema(b.snapshot), Entries(env, b.snapshot, b.files)))
  }

  lemma CollectedFilesAreUnique(env: Platform, readable: Path -> bool, nodes: Nodes, data: Path, rows: Option<seq<Row>>)
    requires Collected(env, readable, nodes, data, rows).Ok?
    ensures UniqueIds(Collected(env, readable, nodes, data, rows).value.artifacts)
  {
    CollectedAreListedFiles(env, readable, nodes, data, Listed(rows.value));
  }

  // ----- Opening and closing the store -----

  function WithFile(nodes: Nodes, path: Path, content: Option<Bytes>): Nodes {
    if content.Some? then nodes[path := File(content.value)] else nodes - {path}
  }

  /** The data directory with another database pair in it. */
  function WithPair(env: Platform, data: Path, nodes: Nodes, pair: Pair): Nodes {
    WithFile(WithFile(nodes, PathOf(env, data, DatabaseFile), pair.database), PathOf(env, data, WalFile), pair.wal)
  }

  /** What opening the store makes of the data directory: a restore marker is verified and cleared first, and
      then the database engine recovers, migrates or creates the pair. */
  function StoreOpened(env: Platform, nodes: Nodes, data: Path): Outcome<Nodes> {
    var marker := PathOf(env, data, PendingFile);
    if IsDir(nodes, PathOf(env, data, DatabaseFile)) || IsDir(nodes, PathOf(env, data, WalFile)) || IsDir(nodes, marker)
       || !Opens(env.fingerprint, FileAt(nodes, marker), LivePair(env, data, nodes))
    then Err(OpenStore)
    else Ok(WithPair(env, data, nodes - {marker}, env.onOpen(LivePair(env, data, nodes))))
  }

  /** Nothing but files where the store keeps its pair and a restore its marker. */
  ghost predicate PairIsFiles(env: Platform, nodes: Nodes, data: Path) {
    forall place | place in {DatabaseFile, WalFile, PendingFile} :: !IsDir(nodes, PathOf(env, data, place))
  }

  /** A restore marker is there, complete, and the live pair is neither of the two it records. */
  ghost predicate MixedPair(env: Platform, nodes: Nodes, data: Path) {
    exists restored: Pair, previous: Pair ::
      && FileAt(nodes, PathOf(env, data, PendingFile)) == Some(MarkerText(env.fingerprint, restored, previous))
      && LivePair(env, data, nodes) != restored && LivePair(env, data, nodes) != previous
  }

  /** The marker does not show enough of the live pair, in whichever of the states a restore leaves. */
  ghost predicate MarkerRefuses(env: Platform, nodes: Nodes, data: Path) {
    !Opens(env.fingerprint, FileAt(nodes, PathOf(env, data, PendingFile)), LivePair(env, data, nodes))
  }

  /** Under a complete marker the store opens exactly over one of the two pairs that the marker records. */
  lemma MarkedPairOpensExactly(env: Platform, nodes: Nodes, data: Path, restored: Pair, previous: Pair)
    requires Lawful(env)
    requires FileAt(nodes, PathOf(env, data, PendingFile)) == Some(MarkerText(env.fingerprint, restored, previous))
    ensures StoreOpened(env, nodes, data).Ok? <==>
              PairIsFiles(env, nodes, data) && LivePair(env, data, nodes) in {restored, previous}
    ensures !StoreOpened(env, nodes, data).Ok? ==> StoreOpened(env, nodes, data) == Err(OpenStore)
  {
    hide Opens, MarkerText, PathOf, WithPair, Lawful;
    var text := MarkerText(env.fingerprint, restored, previous);
    FingerprintsTellApart(env);
    OpensByWhatIsShown(env.fingerprint, restored, previous, |text|, LivePair(env, data, nodes));
    FourthWordIsBegun(env, restored, previous);
    assert text[..|text|] == text;
  }

  lemma FingerprintsTellApart(env: Platform)
    requires Lawful(env)
    ensures TellsApart(env.fingerprint)
  {
  }

  /** A mixed pair, as a restore that stopped between its two renames leaves it, is refused. */
  lemma MixedPairIsRefused(env: Platform, nodes: Nodes, data: Path)
    requires Lawful(env) && MixedPair(env, nodes, data)
    ensures StoreOpened(env, nodes, data) == Err(OpenStore)
  {
    hide MarkerText, PathOf, StoreOpened, Lawful;
    var restored: Pair, previous: Pair :|
      && FileAt(nodes, PathOf(env, data, PendingFile)) == Some(MarkerText(env.fingerprint, restored, previous))
      && LivePair(env, data, nodes) != restored && LivePair(env, data, nodes) != previous;
    MarkedPairOpensExactly(env, nodes, data, restored, previous);
  }

  /** In every state that a restore can leave, the store opens exactly when the marker shows enough of the
      pair it finds. */
  lemma OpensAfterARestoreExactly(env: Platform, data: Path, before: Nodes, now: Nodes, s: Snapshot)
    requires PairIsTold(env, data, before, now, s) && PathOf(env, data, PendingFile) !in before
    ensures var marker, previous := FileAt(now, PathOf(env, data, PendingFile)), LivePair(env, data, before);
            StoreOpened(env, now, data).Ok? <==>
              && PairIsFiles(env, now, data)
              && Shows(env.fingerprint, marker, RestoredPair(s), previous, LivePair(env, data, now))
    ensures !StoreOpened(env, now, data).Ok? ==> StoreOpened(env, now, data) == Err(OpenStore)
  {
    hide Opens, Shows, MarkerText, PathOf, WithPair;
  }

  /** What closing it makes of the pair, by a checkpoint. */
  function StoreClosed(env: Platform, nodes: Nodes, data: Path): Nodes {
    WithPair(env, data, nodes, env.onClose(LivePair(env, data, nodes)))
  }

  lemma WithFileIsWellFormed(nodes: Nodes, data: Path, path: Path, content: Option<Bytes>)
    requires Home(data, nodes) && path != [] && Parent(path) == data && !IsDir(nodes, path)
    ensures Home(data, WithFile(nodes, path, content))
    ensures forall p | p != path :: SameAt(nodes, WithFile(nodes, path, content), p)
    ensures !IsDir(WithFile(nodes, path, content), path) && FileAt(WithFile(nodes, path, content), path) == content
  {
    hide WellFormed;
    HomeIsWellFormed(data, nodes);
    if content.Some? {
      AddFile(nodes, path, content.value);
    } else {
      RemoveFile(nodes, path);
    }
  }

  lemma WithPairIsWellFormed(env: Platform, data: Path, nodes: Nodes, pair: Pair)
    requires Lawful(env) && Home(data, nodes)
    requires !IsDir(nodes, PathOf(env, data, DatabaseFile)) && !IsDir(nodes, PathOf(env, data, WalFile))
    ensures var after := WithPair(env, data, nodes, pair);
            && Home(data, after) && LivePair(env, data, after) == pair
            && !IsDir(after, PathOf(env, data, DatabaseFile)) && !IsDir(after, PathOf(env, data, WalFile))
            && forall p | p != PathOf(env, data, DatabaseFile) && p != PathOf(env, data, WalFile) ::
                 SameAt(nodes, after, p)
  {
    hide Home, Lawful;
    var database, wal := PathOf(env, data, DatabaseFile), PathOf(env, data, WalFile);
    assert database[|data|] != wal[|data|];
    assert Parent(database) == data && Parent(wal) == data;
    WithFileIsWellFormed(nodes, data, database, pair.database);
    var mid := WithFile(nodes, database, pair.database);
    assert SameAt(nodes, mid, wal);
    WithFileIsWellFormed(mid, data, wal, pair.wal);
    var after := WithFile(mid, wal, pair.wal);
    assert SameAt(mid, after, database);
    forall p | p != database && p != wal ensures SameAt(nodes, after, p) {
      assert SameAt(nodes, mid, p) && SameAt(mid, after, p);
    }
  }

  /** Opening leaves everything but the pair and the marker alone, and an open store has no marker. */
  lemma OpeningKeepsTheRest(env: Platform, nodes: Nodes, data: Path)
    requires Lawful(env) && Home(data, nodes) && StoreOpened(env, nodes, data).Ok?
    ensures var opening := StoreOpened(env, nodes, data).value;
            && Home(data, opening) && LivePair(env, data, opening) == env.onOpen(LivePair(env, data, nodes))
            && FileAt(opening, PathOf(env, data, PendingFile)).None?
            && !IsDir(opening, PathOf(env, data, DatabaseFile)) && !IsDir(opening, PathOf(env, data, WalFile))
            && forall place | place !in {DatabaseFile, WalFile, PendingFile} ::
                 FileAt(opening, PathOf(env, data, place)) == FileAt(nodes, PathOf(env, data, place))
  {
    hide Opens, WithPair, Home, PathOf;
    var marker := PathOf(env, data, PendingFile);
    var cleared := nodes - {marker};
    HomeIsWellFormed(data, nodes);
    RemoveFile(nodes, marker);
    PlaceIsBelowHome(env, data, PendingFile, nodes);
    assert !IsDir(cleared, PathOf(env, data, DatabaseFile)) && !IsDir(cleared, PathOf(env, data, WalFile));
    WithPairIsWellFormed(env, data, cleared, env.onOpen(LivePair(env, data, nodes)));
    var opening := WithPair(env, data, cleared, env.onOpen(LivePair(env, data, nodes)));
    PlacesDiffer(env, data, PendingFile, DatabaseFile);
    PlacesDiffer(env, data, PendingFile, WalFile);
    assert SameAt(cleared, opening, marker);
    forall place | place !in {DatabaseFile, WalFile, PendingFile}
      ensures FileAt(opening, PathOf(env, data, place)) == FileAt(nodes, PathOf(env, data, place))
    {
      PlacesDiffer(env, data, place, PendingFile);
      PlacesDiffer(env, data, place, DatabaseFile);
      PlacesDiffer(env, data, place, WalFile);
      assert SameAt(cleared, opening, PathOf(env, data, place));
    }
  }

  lemma PlacesDiffer(env: Platform, data: Path, a: Place, b: Place)
    requires Lawful(env) && a != b
    ensures PathOf(env, data, a) != PathOf(env, data, b)
  {
    if PathOf(env, data, a) == PathOf(env, data, b) {
      PlacesAreApart(env, data, a, b);
    }
  }

  /** Closing changes the pair by the checkpoint and nothing else. */
  lemma ClosingKeepsTheRest(env: Platform, nodes: Nodes, data: Path)
    requires Lawful(env) && Home(data, nodes) && PairIsFiles(env, nodes, data)
    ensures var closed := StoreClosed(env, nodes, data);
            && LivePair(env, data, closed) == env.onClose(LivePair(env, data, nodes))
            && forall place | place !in {DatabaseFile, WalFile} ::
                 FileAt(closed, PathOf(env, data, place)) == FileAt(nodes, PathOf(env, data, place))
  {
    hide Home, WithPair, PathOf, Lawful;
    WithPairIsWellFormed(env, data, nodes, env.onClose(LivePair(env, data, nodes)));
    forall place | place !in {DatabaseFile, WalFile}
      ensures FileAt(StoreClosed(env, nodes, data), PathOf(env, data, place)) == FileAt(nodes, PathOf(env, data, place))
    {
      PlacesDiffer(env, data, place, DatabaseFile);
      PlacesDiffer(env, data, place, WalFile);
      assert SameAt(nodes, StoreClosed(env, nodes, data), PathOf(env, data, place));
    }
  }

  /** Removing a file of the data directory leaves a data directory. */
  lemma PlaceIsBelowHome(env: Platform, data: Path, place: Place, nodes: Nodes)
    requires Home(data, nodes)
    ensures WellFormed(nodes - {PathOf(env, data, place)}) ==> Home(data, nodes - {PathOf(env, data, place)})
  {
    assert |PathOf(env, data, place)| > |data|;
  }

  lemma MixedIsRefused(env: Platform, nodes: Nodes, data: Path)
    requires Lawful(env)
    ensures MarkerRefuses(env, nodes, data) || MixedPair(env, nodes, data) ==>
              StoreOpened(env, nodes, data) == Err(OpenStore)
  {
    hide MixedPair, Opens, WithPair, PathOf, Lawful;
    if MixedPair(env, nodes, data) {
      MixedPairIsRefused(env, nodes, data);
    }
  }

  /** Opens the store. Clearing the marker and what the engine does to the pair are one step each, and each
      can fail or be cut off before or after it is made. */
  method OpenTheStore(disk: Disk, env: Platform, data: Path, calm: bool) returns (r: Outcome<()>)
    requires Home(data, disk.nodes) && Lawful(env)
    modifies disk
    ensures WellFormed(disk.nodes)
    ensures r.Ok? ==> StoreOpened(env, old(disk.nodes), data) == Ok(disk.nodes)
    ensures StoreOpened(env, old(disk.nodes), data).Err? ==> r == Err(OpenStore) && disk.nodes == old(disk.nodes)
    ensures MarkerRefuses(env, old(disk.nodes), data) || MixedPair(env, old(disk.nodes), data) ==>
              r == Err(OpenStore) && disk.nodes == old(disk.nodes)
    ensures !r.Ok? ==>
              || disk.nodes == old(disk.nodes) || disk.nodes == old(disk.nodes) - {PathOf(env, data, PendingFile)}
              || StoreOpened(env, old(disk.nodes), data) == Ok(disk.nodes)
    ensures r.Err? ==> r.error == OpenStore
    ensures calm && StoreOpened(env, old(disk.nodes), data).Ok? ==> r.Ok?
  {
    hide Opens, WellFormed, Home, WithPair, Lawful, MixedPair;
    HomeIsWellFormed(data, disk.nodes);
    MixedIsRefused(env, disk.nodes, data);
    var marker, live := PathOf(env, data, PendingFile), LivePair(env, data, disk.nodes);
    if IsDir(disk.nodes, PathOf(env, data, DatabaseFile)) || IsDir(disk.nodes, PathOf(env, data, WalFile))
       || IsDir(disk.nodes, marker) || !Opens(env.fingerprint, FileAt(disk.nodes, marker), live)
    {
      return Err(OpenStore);
    }
    OpeningKeepsTheRest(env, disk.nodes, data);
    HomeIsWellFormed(data, StoreOpened(env, disk.nodes, data).value);
    var s := Interruption(calm);
    if !s.Done? {
      return if s.Failed? then Err(OpenStore) else Crash;
    }
    RemoveFile(disk.nodes, marker);
    disk.nodes := disk.nodes - {marker};
    s := Interruption(calm);
    if !s.Done? {
      return if s.Failed? then Err(OpenStore) else Crash;
    }
    disk.nodes := WithPair(env, data, disk.nodes, env.onOpen(live));
    s := Interruption(calm);
    r := if s.Done? then Ok(()) else if s.Failed? then Err(OpenStore) else Crash;
  }

  /** What is on the disk when a backup of an opened data directory is written: the store closed again. */
  ghost predicate BackupWritten(env: Platform, data: Path, opening: Nodes, now: Nodes, output: Path, b: Backup)
    requires output != []
  {
    Wrote(StoreClosed(env, opening, data), now, output, Sealed(env, b))
  }

  /** Backs up a stopped instance: opens the store, collects the entries, closes it, seals the entries, writes
      the package, and opens it again. What is backed up is the data directory with the store open. */
  method CreateBackup(disk: Disk, env: Platform, readable: Path -> bool, data: Path, running: bool, unlock: Envelope,
                      output: Path, calm: bool)
    returns (r: Outcome<nat>, ghost opening: Nodes)
    requires WellFormed(disk.nodes) && Lawful(env) && output != []
    modifies disk
    ensures WellFormed(disk.nodes)
    ensures var stopped := StoppedInstance(env, old(disk.nodes), data, running);
            stopped.Err? ==> r == Err(stopped.error) && disk.nodes == old(disk.nodes)
    ensures StoppedInstance(env, old(disk.nodes), data, running).Ok? && StoreOpened(env, old(disk.nodes), data).Err? ==>
              r == Err(OpenStore) && disk.nodes == old(disk.nodes)
    ensures StoppedInstance(env, old(disk.nodes), data, running).Ok?
            && (MarkerRefuses(env, old(disk.nodes), data) || MixedPair(env, old(disk.nodes), data)) ==>
              r == Err(OpenStore) && disk.nodes == old(disk.nodes)
    ensures r.Ok? ==>
              && StoppedInstance(env, old(disk.nodes), data, running).Ok?
              && StoreOpened(env, old(disk.nodes), data) == Ok(opening)
              && BackupOf(env, readable, opening, data, running, unlock).Ok?
              && var b := BackupOf(env, readable, opening, data, running, unlock).value;
                 && BackupWritten(env, data, opening, disk.nodes, output, b)
                 && r.value == |Entries(env, b.snapshot, b.files)| && UniqueNames(Entries(env, b.snapshot, b.files))
    ensures calm && StoppedInstance(env, old(disk.nodes), data, running).Ok?
            && StoreOpened(env, old(disk.nodes), data).Ok? ==>
              && StoreOpened(env, old(disk.nodes), data) == Ok(opening)
              && var backup := BackupOf(env, readable, opening, data, running, unlock);
                 && (backup.Err? ==> r == Err(backup.error))
                 && (backup.Ok? ==> (r.Ok? <==> CanWrite(StoreClosed(env, opening, data), output)))
  {
    hide Entries, Collected, WellFormed, Prepared, Wrote, CanWrite, Home, StoreOpened, StoreClosed, Lawful, PathOf;
    hide MixedPair, Opens;
    ghost var before := disk.nodes;
    opening := before;
    StoppedMeansHome(env, disk.nodes, data, running);
    MixedIsRefused(env, disk.nodes, data);
    var stopped := StoppedInstance(env, disk.nodes, data, running);
    if stopped.Err? {
      return Err(stopped.error), opening;
    }
    var store := OpenTheStore(disk, env, data, calm);
    if !store.Ok? {
      r := if store.Err? then Err(store.error) else Crash;
      return;
    }
    opening := disk.nodes;
    StoppedStays(env, before, data, running);
    var collected := CollectTheBackup(disk, env, readable, data, running, unlock);
    if !collected.Ok? {
      r := if collected.Err? then Err(collected.error) else Crash;
      return;
    }
    ClosingKeepsHome(env, before, data);
    var s := Interruption(calm);
    if !s.Done? {
      r := if s.Failed? then Err(CloseStore) else Crash;
      return;
    }
    disk.nodes := StoreClosed(env, disk.nodes, data);
    s := Interruption(calm);
    if !s.Done? {
      r := if s.Failed? then Err(CloseStore) else Crash;
      return;
    }
    ghost var b := BackupOf(env, readable, opening, data, running, unlock).value;
    BackupIsWellMade(env, readable, opening, data, running, unlock, b);
    PackageEntriesAddUp(env, b.snapshot, b.files);
    var package := env.seal(collected.value.0, collected.value.1);
    s := WriteFileAtomic(disk, output, package, calm);
    if !s.Done? {
      r := if s.Failed? then Err(WritePackage) else Crash;
      return;
    }
    // The written package opens again with every entry in it, so the check that follows cannot fail.
    WrittenPackageOpens(env, collected.value.0, collected.value.1);
    assert env.unseal(collected.value.0, package) == Opened(collected.value.1);
    r := Ok(|collected.value.1.entries|);
  }

  /** The key and the package of a backup, as the statements of a backup find them in the opened store. */
  method CollectTheBackup(disk: Disk, env: Platform, readable: Path -> bool, data: Path, running: bool,
                          unlock: Envelope)
    returns (r: Outcome<(Key, Package)>)
    requires StoppedInstance(env, disk.nodes, data, running).Ok?
    ensures r == match BackupOf(env, readable, disk.nodes, data, running, unlock)
                 case Err(e) => Err(e)
                 case Crash => Crash
                 case Ok(b) =>
                   Ok((b.key, Package(env.version, env.schema(b.snapshot), Entries(env, b.snapshot, b.files))))
  {
    hide Entries, Collected, StoppedInstance;
    var snapshot := SnapshotTaken(env, disk.nodes, data);
    if snapshot.None? {
      return Err(ReadSnapshot);
    }
    var key := InstanceKey(env, disk.nodes, data, unlock);
    if key.Err? {
      return Err(key.error);
    }
    var collected := CollectBackupEntries(env, readable, disk.nodes, data, snapshot.value, env.rows(snapshot.value));
    if !collected.Ok? {
      NoCrashWhileCollecting(env, readable, disk.nodes, data, env.rows(snapshot.value));
      return Err(collected.error);
    }
    if |collected.value| > MAX_ENTRIES {
      return Err(InvalidPackage);
    }
    return Ok((key.value, Package(env.version, env.schema(snapshot.value), collected.value)));
  }

  lemma WrittenPackageOpens(env: Platform, key: Key, package: Package)
    requires Lawful(env)
    ensures env.unseal(key, env.seal(key, package)) == Opened(package)
  {
  }

  /** Opening the store does not touch the instance marker. */
  lemma StoppedStays(env: Platform, nodes: Nodes, data: Path, running: bool)
    requires Lawful(env) && Home(data, nodes) && StoreOpened(env, nodes, data).Ok?
    ensures StoppedInstance(env, StoreOpened(env, nodes, data).value, data, running)
         == StoppedInstance(env, nodes, data, running)
  {
    hide StoreOpened, PathOf, Home, Lawful;
    OpeningKeepsTheRest(env, nodes, data);
    assert FileAt(StoreOpened(env, nodes, data).value, PathOf(env, data, MarkerFile))
        == FileAt(nodes, PathOf(env, data, MarkerFile));
  }

  lemma ClosingKeepsHome(env: Platform, nodes: Nodes, data: Path)
    requires Lawful(env) && Home(data, nodes) && StoreOpened(env, nodes, data).Ok?
    ensures Home(data, StoreClosed(env, StoreOpened(env, nodes, data).value, data))
    ensures WellFormed(StoreClosed(env, StoreOpened(env, nodes, data).value, data))
  {
    hide StoreOpened, PathOf, Lawful, WithPair, WellFormed, IsDir;
    OpeningKeepsTheRest(env, nodes, data);
    var opening := StoreOpened(env, nodes, data).value;
    WithPairIsWellFormed(env, data, opening, env.onClose(LivePair(env, data, opening)));
    HomeIsWellFormed(data, StoreClosed(env, opening, data));
  }

  lemma NoCrashWhileCollecting(env: Platform, readable: Path -> bool, nodes: Nodes, data: Path, rows: Option<seq<Row>>)
    ensures !Collected(env, readable, nodes, data, rows).Crash?
  {
    if rows.Some? {
      NoCrashInArtifacts(env, readable, nodes, data, Listed(rows.value));
    }
  }

  lemma {:induction false} NoCrashInArtifacts(
      env: Platform, readable: Path -> bool, nodes: Nodes, data: Path, rows: seq<Row>)
    ensures !CollectedArtifacts(env, readable, nodes, data, rows).Crash?
  {
    if rows != [] {
      NoCrashInArtifacts(env, readable, nodes, data, rows[..|rows| - 1]);
    }
  }

  // ----- What is in a backup -----

  lemma {:induction false} LastOfUnique(artifacts: seq<(Uuid, Bytes)>, a: (Uuid, Bytes))
    requires UniqueIds(artifacts) && a in artifacts
    ensures LastOf(artifacts, a.0) == Some(a.1)
  {
    var front, last := artifacts[..|artifacts| - 1], artifacts[|artifacts| - 1];
    assert artifacts == front + [last];
    if a != last {
      LastOfUnique(front, a);
      var i :| 0 <= i < |front| && front[i] == a;
      assert artifacts[i].0 != artifacts[|artifacts| - 1].0;
    }
  }

  lemma {:induction false} LastOfExactly(artifacts: seq<(Uuid, Bytes)>, id: Uuid)
    ensures LastOf(artifacts, id).Some? <==> HasId(artifacts, id)
  {
    if artifacts != [] {
      var front, last := artifacts[..|artifacts| - 1], artifacts[|artifacts| - 1];
      assert artifacts == front + [last];
      LastOfExactly(front, id);
      if HasId(front, id) {
        var a :| a in front && a.0 == id;
        assert a in artifacts;
      }
      if last.0 == id {
        assert last in artifacts;
      }
    }
  }

  /** A packaged artifact is a listed one with its bytes at the time of the backup; and every listed
      artifact that had a file is packaged. */
  lemma PackagedArtifact(env: Platform, readable: Path -> bool, nodes: Nodes, data: Path, rows: seq<Row>, id: Uuid)
    requires CollectedArtifacts(env, readable, nodes, data, Listed(rows)).Ok?
    ensures var artifacts := CollectedArtifacts(env, readable, nodes, data, Listed(rows)).value;
            LastOf(artifacts, id)
            == if id in Ids(rows) then FileAt(nodes, PathOf(env, data, ArtifactBytes(id))) else None
  {
    var artifacts := CollectedArtifacts(env, readable, nodes, data, Listed(rows)).value;
    CollectedAreListedFiles(env, readable, nodes, data, Listed(rows));
    LastOfExactly(artifacts, id);
    ListedIds(rows, id);
    if HasId(artifacts, id) {
      var a :| a in artifacts && a.0 == id;
      LastOfUnique(artifacts, a);
    } else if id in Ids(rows) && FileAt(nodes, PathOf(env, data, ArtifactBytes(id))).Some? {
      ListedFilesAreCollected(env, readable, nodes, data, Listed(rows), id);
    }
  }

  /** What a backup takes of each place: the file there, with the exceptions of an empty log, an envelope
      that cannot be read or does not load, an artifact without a row, and what a restore clears away. */
  function TakenAlong(env: Platform, readable: Path -> bool, nodes: Nodes, data: Path, rows: seq<Row>, place: Place)
    : Option<Bytes>
  {
    var path := PathOf(env, data, place);
    var there := FileAt(nodes, path);
    match place
    case ShmFile => None
    case PendingFile => None
    case WalFile => NonEmpty(there)
    case KeyFile => if readable(path) && there.Some? && env.loads(Passphrase, there.value) then there else None
    case SystemKeyFile => if readable(path) && there.Some? && env.loads(System, there.value) then there else None
    case ArtifactBytes(id) => if id in Ids(rows) then there else None
    case _ => there
  }

  lemma FixedFilesPackaged(env: Platform, readable: Path -> bool, nodes: Nodes, data: Path, rows: Option<seq<Row>>,
                           snapshot: Snapshot, place: Place)
    requires Collected(env, readable, nodes, data, rows).Ok? && SnapshotTaken(env, nodes, data) == Some(snapshot)
    requires !place.ArtifactBytes?
    ensures Packaged(snapshot, Collected(env, readable, nodes, data, rows).value, place)
         == TakenAlong(env, readable, nodes, data, rows.value, place)
  {
    hide CollectedArtifacts, Listed;
  }

  /** A package holds, place by place, exactly what the data directory held at the time of the backup. */
  lemma PackagedExactly(env: Platform, readable: Path -> bool, nodes: Nodes, data: Path, running: bool,
                        unlock: Envelope, b: Backup, place: Place)
    requires BackupOf(env, readable, nodes, data, running, unlock) == Ok(b)
    ensures env.rows(b.snapshot).Some?
    ensures Packaged(b.snapshot, b.files, place)
         == TakenAlong(env, readable, nodes, data, env.rows(b.snapshot).value, place)
  {
    hide CollectedArtifacts, LastOf, Listed, Entries, StoppedInstance, InstanceKey;
    CollectedParts(env, readable, nodes, data, env.rows(b.snapshot));
    hide Collected;
    if place.ArtifactBytes? {
      PackagedArtifact(env, readable, nodes, data, env.rows(b.snapshot).value, place.id);
    } else {
      FixedFilesPackaged(env, readable, nodes, data, env.rows(b.snapshot), b.snapshot, place);
    }
  }

  // ----- The round trip -----

  /** A backup made with a key opens again with that key as what was collected, whatever the data directory
      has become; with the right version and schema it is admitted. */
  lemma OwnBackupOpens(env: Platform, b: Backup)
    requires Lawful(env) && b.snapshot.wal != Some([]) && env.compatibility(b.snapshot).Compatible?
    ensures var opening := OpenedPackage(env, b.key, Sealed(env, b));
            && opening.Ok? && opening.value.snapshot == b.snapshot
            && Unpacked(env, opening.value.entries) == b.files && BadName(env, opening.value.entries).None?
            && opening.value.entries == Entries(env, b.snapshot, b.files)
            && env.unseal(b.key, Sealed(env, b))
               == Opened(Package(env.version, env.schema(b.snapshot), Entries(env, b.snapshot, b.files)))
  {
    UnpackingUndoesPacking(env, b.snapshot, b.files);
  }

  /** Restoring a backup brings back, at every packaged place, the bytes at the time of the backup, whatever
      happened in between; every other file of the data directory stays as the restore found it, except that
      an old log, shared-memory index or marker is gone; and the entries add up. */
  lemma RestoreUndoesEverythingSince(env: Platform, readable: Path -> bool, atBackup: Nodes, data: Path, running: bool,
                                     unlock: Envelope, b: Backup, before: Nodes, now: Nodes, outcome: RestoreOutcome)
    requires Lawful(env) && BackupOf(env, readable, atBackup, data, running, unlock) == Ok(b)
    requires SuccessIsComplete(env, data, before, now, OpenedPackage(env, b.key, Sealed(env, b)), outcome)
    ensures forall place | Packaged(b.snapshot, b.files, place).Some? ::
              FileAt(now, PathOf(env, data, place)) == FileAt(atBackup, PathOf(env, data, place))
    ensures forall place | Packaged(b.snapshot, b.files, place).None? && place !in {WalFile, ShmFile, PendingFile} ::
              FileAt(now, PathOf(env, data, place)) == FileAt(before, PathOf(env, data, place))
    ensures forall p | Within(p, data) && !IsPlace(env, data, p) :: FileAt(now, p) == FileAt(before, p)
    ensures outcome.restoredEntries + 1 + Count(b.snapshot.wal) == |Entries(env, b.snapshot, b.files)|
  {
    hide Entries, Collected, StoppedInstance, Verdict, Packaged, PathOf, FileAt, IsPlace, BackupOf, Restored, Lawful;
    hide RestoredCount, UniqueIds;
    BackupIsWellMade(env, readable, atBackup, data, running, unlock, b);
    UnpackingUndoesPacking(env, b.snapshot, b.files);
    PackageEntriesAddUp(env, b.snapshot, b.files);
    SealedOpens(env, b);
    RestoredFiles(env, data, before, now, b.snapshot, b.files);
    forall place | Packaged(b.snapshot, b.files, place).Some?
      ensures FileAt(now, PathOf(env, data, place)) == FileAt(atBackup, PathOf(env, data, place))
    {
      PackagedWasThere(env, readable, atBackup, data, running, unlock, b, place);
    }
  }

  lemma PackagedWasThere(env: Platform, readable: Path -> bool, nodes: Nodes, data: Path, running: bool,
                         unlock: Envelope, b: Backup, place: Place)
    requires BackupOf(env, readable, nodes, data, running, unlock) == Ok(b)
    ensures Packaged(b.snapshot, b.files, place).Some? ==>
              Packaged(b.snapshot, b.files, place) == FileAt(nodes, PathOf(env, data, place))
  {
    hide BackupOf, Packaged, PathOf, FileAt;
    PackagedExactly(env, readable, nodes, data, running, unlock, b, place);
  }

  lemma RestoredFiles(env: Platform, data: Path, before: Nodes, now: Nodes, snapshot: Snapshot, f: Files)
    ensures Restored(env, data, before, now, snapshot, f) ==>
              && (forall place | Packaged(snapshot, f, place).Some? ::
                    FileAt(now, PathOf(env, data, place)) == Packaged(snapshot, f, place))
              && (forall place | Packaged(snapshot, f, place).None? && place !in {WalFile, ShmFile, PendingFile} ::
                    FileAt(now, PathOf(env, data, place)) == FileAt(before, PathOf(env, data, place)))
              && (forall p | Within(p, data) && !IsPlace(env, data, p) :: FileAt(now, p) == FileAt(before, p))
  {
    hide Packaged, PathOf, FileAt, IsPlace;
  }

  /** What every backup is: collected from distinct artifacts, with no empty log. */
  lemma BackupIsWellMade(env: Platform, readable: Path -> bool, nodes: Nodes, data: Path, running: bool,
                         unlock: Envelope, b: Backup)
    requires BackupOf(env, readable, nodes, data, running, unlock) == Ok(b)
    ensures b.snapshot.wal != Some([]) && UniqueIds(b.files.artifacts)
  {
    hide Collected, Entries, StoppedInstance, InstanceKey, UniqueIds;
    CollectedFilesAreUnique(env, readable, nodes, data, env.rows(b.snapshot));
  }

  /** Whatever a sealed backup opens as is what was sealed. */
  lemma SealedOpens(env: Platform, b: Backup)
    requires Lawful(env)
    ensures var opening := OpenedPackage(env, b.key, Sealed(env, b));
            opening.Ok? ==>
              && opening.value.entries == Entries(env, b.snapshot, b.files)
              && Some(opening.value.snapshot) == SnapshotOf(opening.value.entries)
  {
    hide Entries, SnapshotOf;
  }

  lemma NoOrphans(env: Platform, readable: Path -> bool, nodes: Nodes, data: Path, rows: seq<Row>)
    requires CollectedArtifacts(env, readable, nodes, data, Listed(rows)).Ok?
    ensures Orphans(Listed(rows), CollectedArtifacts(env, readable, nodes, data, Listed(rows)).value) == []
  {
    var artifacts := CollectedArtifacts(env, readable, nodes, data, Listed(rows)).value;
    CollectedAreListedFiles(env, readable, nodes, data, Listed(rows));
    var orphans := Orphans(Listed(rows), artifacts);
    if orphans != [] {
      OrphansExactly(Listed(rows), artifacts, orphans[0]);
    }
  }

  lemma MissingAfterRestore(env: Platform, readable: Path -> bool, atBackup: Nodes, data: Path, rows: seq<Row>,
                            before: Nodes, now: Nodes, snapshot: Snapshot, f: Files, id: Uuid)
    requires CollectedArtifacts(env, readable, atBackup, data, Listed(rows)) == Ok(f.artifacts)
    requires Restored(env, data, before, now, snapshot, f)
    ensures var path := PathOf(env, data, ArtifactBytes(id));
            id in Missing(env, now, data, Listed(rows)) <==>
              Row(id, Ready) in rows && FileAt(atBackup, path).None? && FileAt(before, path).None?
  {
    hide CollectedArtifacts, Listed, Missing, PathOf, FileAt;
    MissingExactly(env, now, data, Listed(rows), id);
    ListedExactly(rows, Row(id, Ready));
    PackagedArtifact(env, readable, atBackup, data, rows, id);
    assert Row(id, Ready) in rows ==> id in Ids(rows);
    assert FileAt(now, PathOf(env, data, ArtifactBytes(id)))
        == RestoredAt(snapshot, f, ArtifactBytes(id), FileAt(before, PathOf(env, data, ArtifactBytes(id))));
  }

  /** What the consistency check says of a backup: it never reports an orphan, and it reports exactly the
      ready rows whose file was neither there at the time of the backup nor there when the restore began. */
  lemma CheckOfOwnBackup(env: Platform, readable: Path -> bool, atBackup: Nodes, data: Path, running: bool,
                         unlock: Envelope, b: Backup, before: Nodes, now: Nodes)
    requires BackupOf(env, readable, atBackup, data, running, unlock) == Ok(b)
    requires Restored(env, data, before, now, b.snapshot, b.files)
    ensures env.rows(b.snapshot).Some?
    ensures Orphans(Listed(env.rows(b.snapshot).value), b.files.artifacts) == []
    ensures forall id: Uuid ::
              id in Missing(env, now, data, Listed(env.rows(b.snapshot).value)) <==>
                && Row(id, Ready) in env.rows(b.snapshot).value
                && FileAt(atBackup, PathOf(env, data, ArtifactBytes(id))).None?
                && FileAt(before, PathOf(env, data, ArtifactBytes(id))).None?
  {
    hide Entries, Restored, Listed, Missing, Orphans, FileAt, PathOf, CollectedArtifacts;
    CollectedParts(env, readable, atBackup, data, env.rows(b.snapshot));
    var rows := env.rows(b.snapshot).value;
    NoOrphans(env, readable, atBackup, data, rows);
    forall id: Uuid
      ensures id in Missing(env, now, data, Listed(rows)) <==>
                && Row(id, Ready) in rows && FileAt(atBackup, PathOf(env, data, ArtifactBytes(id))).None?
                && FileAt(before, PathOf(env, data, ArtifactBytes(id))).None?
    {
      MissingAfterRestore(env, readable, atBackup, data, rows, before, now, b.snapshot, b.files, id);
    }
  }

  lemma CollectedParts(env: Platform, readable: Path -> bool, nodes: Nodes, data: Path, rows: Option<seq<Row>>)
    ensures Collected(env, readable, nodes, data, rows).Ok? ==>
              && rows.Some?
              && CollectedArtifacts(env, readable, nodes, data, Listed(rows.value))
                 == Ok(Collected(env, readable, nodes, data, rows).value.artifacts)
  {
  }

  /** A backup is restored, when nothing goes wrong on the disk, exactly if every ready artifact has its file:
      it was there at the time of the backup, or it is there when the restore begins. */
  lemma OwnBackupIsRestoredExactly(env: Platform, readable: Path -> bool, atBackup: Nodes, data: Path, running: bool,
                                   unlock: Envelope, b: Backup, suffix: string, before: Nodes, now: Nodes)
    requires Lawful(env) && BackupOf(env, readable, atBackup, data, running, unlock) == Ok(b)
    requires env.compatibility(b.snapshot).Compatible? && PathOf(env, data, PendingFile) !in before
    requires Restored(env, data, before, now, b.snapshot, b.files)
    ensures env.rows(b.snapshot).Some?
    ensures CalmResult(env, data, suffix, before, now, OpenedPackage(env, b.key, Sealed(env, b))).Ok? <==>
            forall id: Uuid | Row(id, Ready) in env.rows(b.snapshot).value ::
              || FileAt(atBackup, PathOf(env, data, ArtifactBytes(id))).Some?
              || FileAt(before, PathOf(env, data, ArtifactBytes(id))).Some?
  {
    hide Entries, Restored, Listed, Missing, Orphans, FileAt, PathOf, OpenedPackage, BackupOf, Sealed, Lawful;
    BackupIsWellMade(env, readable, atBackup, data, running, unlock, b);
    OwnBackupOpens(env, b);
    CheckOfOwnBackup(env, readable, atBackup, data, running, unlock, b, before, now);
    var missing := Missing(env, now, data, Listed(env.rows(b.snapshot).value));
    assert missing != [] ==> missing[0] in missing;
  }

  // ----- Backup, anything, restore -----

  lemma OnlyItsOwnKeyOpens(env: Platform, b: Backup, nodes: Nodes, data: Path, unlock: Envelope)
    requires Lawful(env)
    ensures var admission := Admission(env, nodes, data, false, unlock, Some(Sealed(env, b)));
            admission.Ok? ==> admission == OpenedPackage(env, b.key, Sealed(env, b))
  {
    hide StoppedInstance, SnapshotOf, Entries;
  }

  /** Backs up, lets anything happen to the disk but the loss of the package, and restores. When both went
      well, every packaged place holds what it held when the backup was made. */
  method BackUpAndRestore(disk: Disk, env: Platform, readable: Path -> bool, data: Path, unlock: Envelope, output: Path,
                          meanwhile: Nodes, suffix: string, trouble: Trouble)
    returns (made: Outcome<nat>, restored: Outcome<RestoreOutcome>, ghost opening: Nodes, ghost b: Backup)
    requires WellFormed(disk.nodes) && WellFormed(meanwhile) && Lawful(env) && output != []
    modifies disk
    ensures WellFormed(disk.nodes)
    ensures made.Ok? && restored.Ok? ==>
              && StoreOpened(env, old(disk.nodes), data) == Ok(opening)
              && BackupOf(env, readable, opening, data, false, unlock) == Ok(b)
              && (forall place | Packaged(b.snapshot, b.files, place).Some? ::
                    FileAt(disk.nodes, PathOf(env, data, place)) == FileAt(opening, PathOf(env, data, place)))
              && restored.value.restoredEntries + 1 + Count(b.snapshot.wal) == made.value
  {
    hide WellFormed, Lawful, BackupOf, StoreOpened, StoreClosed, Packaged, PathOf, SuccessIsComplete, StoppedInstance;
    hide Admission, NeverTheOnlyCopy, FilesAreWhole, Admissible, SameElsewhere, ErrorTellsWhatIsLeft, Entries, Restored;
    hide Refuses, LeftOutIsUntouched, OpenedPackage, Sealed;
    restored := Err(ReadPackage);
    b := Backup(0, Snapshot([], None), Files(None, None, None, None, None, []));
    made, opening := CreateBackup(disk, env, readable, data, false, unlock, output, false);
    if !made.Ok? {
      return;
    }
    b := BackupOf(env, readable, opening, data, false, unlock).value;
    if FileAt(meanwhile, output) == FileAt(disk.nodes, output) {
      disk.nodes := meanwhile;
    }
    assert FileAt(disk.nodes, output) == Some(Sealed(env, b));
    ghost var before := disk.nodes;
    OnlyItsOwnKeyOpens(env, b, before, data, unlock);
    restored := RestoreBackup(disk, env, data, false, unlock, output, suffix, trouble);
    if restored.Ok? {
      RestoreUndoesEverythingSince(env, readable, opening, data, false, unlock, b, before, disk.nodes, restored.value);
    }
  }
}
