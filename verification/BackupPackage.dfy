/** What a backup package holds: collecting the data directory into named entries, and reading the
    entries back. */
module BackupPackage {
  import opened Wrappers

  import opened DataDirectory
  import opened PendingMarker

  type Uuid = nat
  type Key = nat

  datatype ArtifactState = Uploading | Ready | Rejected

  /** An artifact row of the database. */
  datatype Row = Row(id: Uuid, state: ArtifactState)

  datatype Kind =
    | Database | DatabaseWal | MasterKey | SystemMasterKey | InstanceMarker
    | TlsCertificate | TlsPrivateKey | ArtifactFile

  datatype Entry = Entry(name: string, kind: Kind, content: Bytes)

  /** The database file and its write-ahead log; an empty log counts as none. */
  datatype Snapshot = Snapshot(database: Bytes, wal: Option<Bytes>)

  datatype Package = Package(version: string, schema: nat, entries: seq<Entry>)

  datatype Opening = Opened(package: Package) | NotAuthentic | Malformed

  datatype Compatibility = Compatible(pending: nat) | Newer | Unreadable

  /** The two protected forms of the master key. */
  datatype Envelope = Passphrase | System

  /** The parts of the product that are not modelled: identifiers as text, key envelopes, the package
      encryption, and what the database says about itself. */
  datatype Platform = Platform(
    version: string,
    completeMarker: Bytes,
    format: Uuid -> string,
    parse: string -> Option<Uuid>,
    loads: (Envelope, Bytes) -> bool,
    recover: (Envelope, Bytes) -> Option<Key>,
    seal: (Key, Package) -> Bytes,
    unseal: (Key, Bytes) -> Opening,
    schema: Snapshot -> nat,
    rows: Snapshot -> Option<seq<Row>>,
    compatibility: Snapshot -> Compatibility,
    onOpen: Pair -> Pair,
    onClose: Pair -> Pair,
    fingerprint: Fingerprint)

  /** Reading undoes writing for identifiers and packages, a package does not open with another key, and
      fingerprints tell contents apart. */
  ghost predicate Lawful(env: Platform) {
    && (forall id: Uuid :: env.parse(env.format(id)) == Some(id))
    && (forall key, package :: env.unseal(key, env.seal(key, package)) == Opened(package))
    && (forall key, other, package | other != key :: env.unseal(other, env.seal(key, package)) == NotAuthentic)
    && TellsApart(env.fingerprint)
  }

  datatype BackupError =
    | RuntimeLock | NotInitialized | Marker | MasterKeyFile | MasterKeyProtection
    | OpenStore | CloseStore | ReadSnapshot | ReadState(path: Path) | ListArtifacts | ReadArtifact(id: Uuid)
    | InvalidPackage | WritePackage
    | RestoreUnlockAuthentication | ReadPackage | RestorePackageAuthentication | ProductVersionMismatch
    | MissingDatabaseEntry | RestoreCheck | NewerSchema | PreRestoreSnapshot
    | RestoreInterrupted | RestoreFiles | WriteRestored | InvalidArtifactEntryName(name: string) | ReadRestored
    | ArtifactConsistencyStage | ArtifactConsistencyOpen | ArtifactConsistency(missing: seq<Uuid>, orphan: seq<Uuid>)
    | RestoreFailedPreservingSnapshot(snapshot: Path, source: BackupError)

  datatype Outcome<+T> = Ok(value: T) | Err(error: BackupError) | Crash

  // ----- The places of a data directory -----

  /** The files a restore may write or remove. */
  datatype Place =
    | DatabaseFile | WalFile | ShmFile | PendingFile | KeyFile | SystemKeyFile | MarkerFile
    | CertificateFile | PrivateKeyFile | ArtifactBytes(id: Uuid)

  function RelativePath(env: Platform, place: Place): Path {
    match place
    case DatabaseFile => ["rutilus.db"]
    case WalFile => ["rutilus.db-wal"]
    case ShmFile => ["rutilus.db-shm"]
    case PendingFile => ["rutilus.db-restore-pending"]
    case KeyFile => ["master-key.rut"]
    case SystemKeyFile => ["system-master-key.rut"]
    case MarkerFile => ["instance.rut"]
    case CertificateFile => ["tls", "cert.pem"]
    case PrivateKeyFile => ["tls", "key.pem"]
    case ArtifactBytes(id) => ["artifacts", env.format(id) + ".bin"]
  }

  function PathOf(env: Platform, data: Path, place: Place): Path {
    data + RelativePath(env, place)
  }

  function LockPath(data: Path): Path {
    data + [".rutilus.lock"]
  }

  function BackupsPath(data: Path): Path {
    data + ["backups"]
  }

  /** No place is another place, or above one. */
  lemma PlacesAreApart(env: Platform, data: Path, a: Place, b: Place)
    requires Lawful(env) && Within(PathOf(env, data, b), PathOf(env, data, a))
    ensures a == b
  {
    var x, y := RelativePath(env, a), RelativePath(env, b);
    assert PathOf(env, data, a)[|data|..] == x && PathOf(env, data, b)[|data|..] == y;
    assert PathOf(env, data, b)[..|data| + |x|][|data|..] == y[..|x|];
    assert x[0] == y[0] && (|x| == 2 ==> x[1] == y[1]);
    if a.ArtifactBytes? && b.ArtifactBytes? {
      assert env.format(a.id) == x[1][..|x[1]| - 4] == env.format(b.id);
      assert env.parse(env.format(a.id)) == env.parse(env.format(b.id));
    }
  }

  /** What the copy before a restore leaves out: the runtime lock and the backups, and nothing else. */
  lemma OnlyLockAndBackupsAreLeftOut(data: Path, p: Path)
    requires Within(p, data)
    ensures Excluded(p, LockPath(data), BackupsPath(data)) <==>
            |p| > |data| && p[|data|] in {".rutilus.lock", "backups"}
  {
    OnlyTheFirstNameExcludes(data, ".rutilus.lock", "backups", p);
  }

  /** No file that a restore may write or remove is left out of the copy. */
  lemma PlacesAreCopied(env: Platform, data: Path, place: Place)
    ensures !Excluded(PathOf(env, data, place), LockPath(data), BackupsPath(data))
  {
    var path, name := PathOf(env, data, place), RelativePath(env, place)[0];
    OnlyLockAndBackupsAreLeftOut(data, path);
    assert path[|data|] == name;
    assert |name| >= 3 && name[0] in {'r', 'm', 's', 'i', 't', 'a'};
    assert ".rutilus.lock"[0] == '.' && "backups"[0] == 'b';
  }

  // ----- Collecting -----

  /** A file read: its bytes, its absence, or a failure. `readable` says where the disk fails. */
  datatype ReadResult = Bytes(bytes: Bytes) | NotFound | Failure

  function Read(nodes: Nodes, readable: Path -> bool, p: Path): ReadResult {
    if !readable(p) then Failure else if p !in nodes then NotFound else if nodes[p].Dir? then Failure
    else ReadResult.Bytes(nodes[p].content)
  }

  /** The content of a package apart from the database. */
  datatype Files = Files(
    masterKey: Option<Bytes>, systemKey: Option<Bytes>, marker: Option<Bytes>,
    certificate: Option<Bytes>, privateKey: Option<Bytes>, artifacts: seq<(Uuid, Bytes)>)

  /** The rows in one state, in the order of the database. */
  function InState(rows: seq<Row>, state: ArtifactState): seq<Row> {
    if rows == [] then []
    else (if rows[0].state == state then [rows[0]] else []) + InState(rows[1..], state)
  }

  /** The rows of every state, as the backup and the consistency check go through them. */
  function Listed(rows: seq<Row>): seq<Row> {
    InState(rows, Uploading) + InState(rows, Ready) + InState(rows, Rejected)
  }

  lemma {:induction false} InStateExactly(rows: seq<Row>, state: ArtifactState, row: Row)
    ensures row in InState(rows, state) <==> row in rows && row.state == state
  {
    if rows != [] {
      InStateExactly(rows[1..], state, row);
      assert rows == [rows[0]] + rows[1..];
    }
  }

  lemma ListedExactly(rows: seq<Row>, row: Row)
    ensures row in Listed(rows) <==> row in rows
  {
    InStateExactly(rows, Uploading, row);
    InStateExactly(rows, Ready, row);
    InStateExactly(rows, Rejected, row);
  }

  /** The envelope of the master key, when it loads; an envelope that does not load is left out. */
  function CollectedKey(env: Platform, readable: Path -> bool, nodes: Nodes, data: Path, envelope: Envelope)
    : Option<Bytes>
  {
    var r := Read(nodes, readable, PathOf(env, data, if envelope == Passphrase then KeyFile else SystemKeyFile));
    if r.Bytes? && env.loads(envelope, r.bytes) then Some(r.bytes) else None
  }

  function Ids(rows: seq<Row>): set<Uuid> {
    set row <- rows :: row.id
  }

  /** The bytes of the listed artifacts, each identifier once; an artifact without a file is skipped. */
  function CollectedArtifacts(env: Platform, readable: Path -> bool, nodes: Nodes, data: Path, rows: seq<Row>)
    : Outcome<seq<(Uuid, Bytes)>>
  {
    if rows == [] then Ok([]) else
      var last := rows[|rows| - 1];
      var before := CollectedArtifacts(env, readable, nodes, data, rows[..|rows| - 1]);
      if !before.Ok? || last.id in Ids(rows[..|rows| - 1]) then before else
        match Read(nodes, readable, PathOf(env, data, ArtifactBytes(last.id)))
        case Bytes(bytes) => Ok(before.value + [(last.id, bytes)])
        case NotFound => before
        case Failure => Err(ReadArtifact(last.id))
  }

  /** The TLS pair: both files, or none when both are absent; anything else is an error. */
  function CollectedTls(env: Platform, readable: Path -> bool, nodes: Nodes, data: Path)
    : Outcome<(Option<Bytes>, Option<Bytes>)>
  {
    var certificate := Read(nodes, readable, PathOf(env, data, CertificateFile));
    var privateKey := Read(nodes, readable, PathOf(env, data, PrivateKeyFile));
    if certificate.Bytes? && privateKey.Bytes? then Ok((Some(certificate.bytes), Some(privateKey.bytes)))
    else if certificate.NotFound? && privateKey.NotFound? then Ok((None, None))
    else Err(ReadState(PathOf(env, data, if certificate.Bytes? then PrivateKeyFile else CertificateFile)))
  }

  /** The files a backup takes along. */
  function Collected(env: Platform, readable: Path -> bool, nodes: Nodes, data: Path, rows: Option<seq<Row>>)
    : Outcome<Files>
  {
    var marker := Read(nodes, readable, PathOf(env, data, MarkerFile));
    if !marker.Bytes? then Err(ReadState(PathOf(env, data, MarkerFile))) else
      match CollectedTls(env, readable, nodes, data)
      case Err(e) => Err(e)
      case Crash => Crash
      case Ok(tls) =>
        if rows.None? then Err(ListArtifacts) else
          match CollectedArtifacts(env, readable, nodes, data, Listed(rows.value))
          case Err(e) => Err(e)
          case Crash => Crash
          case Ok(artifacts) =>
            Ok(Files(CollectedKey(env, readable, nodes, data, Passphrase),
                     CollectedKey(env, readable, nodes, data, System),
                     Some(marker.bytes), tls.0, tls.1, artifacts))
  }

  /** Each identifier occurs once. */
  ghost predicate UniqueIds(artifacts: seq<(Uuid, Bytes)>) {
    forall i, j | 0 <= i < j < |artifacts| :: artifacts[i].0 != artifacts[j].0
  }

  ghost predicate HasId(artifacts: seq<(Uuid, Bytes)>, id: Uuid) {
    exists a <- artifacts :: a.0 == id
  }

  lemma CollectedStep(env: Platform, readable: Path -> bool, nodes: Nodes, data: Path, rows: seq<Row>, row: Row)
    requires CollectedArtifacts(env, readable, nodes, data, rows).Ok?
    ensures Ids(rows + [row]) == Ids(rows) + {row.id}
    ensures var artifacts := CollectedArtifacts(env, readable, nodes, data, rows).value;
            CollectedArtifacts(env, readable, nodes, data, rows + [row]) ==
            if row.id in Ids(rows) then Ok(artifacts) else
              match Read(nodes, readable, PathOf(env, data, ArtifactBytes(row.id)))
              case Bytes(bytes) => Ok(artifacts + [(row.id, bytes)])
              case NotFound => Ok(artifacts)
              case Failure => Err(ReadArtifact(row.id))
  {
    assert (rows + [row])[..|rows|] == rows;
  }

  lemma CollectedBefore(env: Platform, readable: Path -> bool, nodes: Nodes, data: Path, rows: seq<Row>, row: Row)
    ensures CollectedArtifacts(env, readable, nodes, data, rows + [row]).Ok? ==>
              CollectedArtifacts(env, readable, nodes, data, rows).Ok?
  {
    assert (rows + [row])[..|rows|] == rows;
  }

  /** A collected artifact is a listed row's file, byte for byte, and nothing is collected twice. */
  lemma {:induction false} CollectedAreListedFiles(
      env: Platform, readable: Path -> bool, nodes: Nodes, data: Path, rows: seq<Row>)
    requires CollectedArtifacts(env, readable, nodes, data, rows).Ok?
    ensures var artifacts := CollectedArtifacts(env, readable, nodes, data, rows).value;
            && UniqueIds(artifacts)
            && forall a <- artifacts ::
                 FileAt(nodes, PathOf(env, data, ArtifactBytes(a.0))) == Some(a.1) && a.0 in Ids(rows)
  {
    hide CollectedArtifacts, Ids;
    if rows == [] {
      NothingCollected(env, readable, nodes, data);
    } else {
      var last, front := rows[|rows| - 1], rows[..|rows| - 1];
      assert rows == front + [last];
      CollectedBefore(env, readable, nodes, data, front, last);
      CollectedAreListedFiles(env, readable, nodes, data, front);
      CollectedStep(env, readable, nodes, data, front, last);
    }
  }

  /** A listed row whose file exists is collected. */
  lemma {:induction false} ListedFilesAreCollected(
      env: Platform, readable: Path -> bool, nodes: Nodes, data: Path, rows: seq<Row>, id: Uuid)
    requires CollectedArtifacts(env, readable, nodes, data, rows).Ok? && id in Ids(rows)
    requires FileAt(nodes, PathOf(env, data, ArtifactBytes(id))).Some?
    ensures HasId(CollectedArtifacts(env, readable, nodes, data, rows).value, id)
  {
    var last, front := rows[|rows| - 1], rows[..|rows| - 1];
    assert rows == front + [last];
    var before := CollectedArtifacts(env, readable, nodes, data, front).value;
    var artifacts := CollectedArtifacts(env, readable, nodes, data, rows).value;
    if id in Ids(front) {
      ListedFilesAreCollected(env, readable, nodes, data, front, id);
      assert forall a <- before :: a in artifacts;
    } else {
      assert last.id == id;
      assert artifacts[|before|].0 == id;
    }
  }

  /** A TLS file that cannot be read: the certificate comes first, and two absent files are no failure. */
  predicate TlsFails(env: Platform, readable: Path -> bool, nodes: Nodes, data: Path, p: Path) {
    var certificate := Read(nodes, readable, PathOf(env, data, CertificateFile));
    var privateKey := Read(nodes, readable, PathOf(env, data, PrivateKeyFile));
    || (p == PathOf(env, data, CertificateFile) && !certificate.Bytes?
        && !(certificate.NotFound? && privateKey.NotFound?))
    || (p == PathOf(env, data, PrivateKeyFile) && certificate.Bytes? && !privateKey.Bytes?)
  }

  /** The TLS pair is taken whole or not at all, and the file named in an error is the one that failed. */
  lemma TlsExactly(env: Platform, readable: Path -> bool, nodes: Nodes, data: Path)
    ensures var tls := CollectedTls(env, readable, nodes, data);
            && !tls.Crash?
            && (tls.Ok? <==> forall p :: !TlsFails(env, readable, nodes, data, p))
            && (forall p :: tls == Err(ReadState(p)) <==> TlsFails(env, readable, nodes, data, p))
            && (tls.Err? ==> tls.error.ReadState?)
            && (tls.Ok? ==>
                  && tls.value.0 == FileAt(nodes, PathOf(env, data, CertificateFile))
                  && tls.value.1 == FileAt(nodes, PathOf(env, data, PrivateKeyFile)))
  {
    TlsPathsDiffer(env, data);
    hide PathOf;
    var tls := CollectedTls(env, readable, nodes, data);
    if tls.Err? {
      assert TlsFails(env, readable, nodes, data, tls.error.path);
    }
  }

  lemma TlsPathsDiffer(env: Platform, data: Path)
    ensures PathOf(env, data, CertificateFile) != PathOf(env, data, PrivateKeyFile)
  {
    assert PathOf(env, data, CertificateFile)[|data| + 1] == "cert.pem";
    assert PathOf(env, data, PrivateKeyFile)[|data| + 1] == "key.pem";
    assert "cert.pem"[0] == 'c' && "key.pem"[0] == 'k';
  }

  ghost predicate ArtifactFails(env: Platform, readable: Path -> bool, nodes: Nodes, data: Path, id: Uuid) {
    Read(nodes, readable, PathOf(env, data, ArtifactBytes(id))).Failure?
  }

  /** The k-th listed artifact is the first that cannot be read. */
  ghost predicate FirstToFail(env: Platform, readable: Path -> bool, nodes: Nodes, data: Path, rows: seq<Row>, k: nat) {
    && k < |rows| && ArtifactFails(env, readable, nodes, data, rows[k].id)
    && forall j | 0 <= j < k :: !ArtifactFails(env, readable, nodes, data, rows[j].id)
  }

  ghost predicate NoneFails(env: Platform, readable: Path -> bool, nodes: Nodes, data: Path, rows: seq<Row>) {
    forall j | 0 <= j < |rows| :: !ArtifactFails(env, readable, nodes, data, rows[j].id)
  }

  /** Collecting stops at the first listed artifact that cannot be read, and only there. */
  lemma {:induction false} ArtifactsStopExactly(
      env: Platform, readable: Path -> bool, nodes: Nodes, data: Path, rows: seq<Row>)
    ensures var artifacts := CollectedArtifacts(env, readable, nodes, data, rows);
            match artifacts
            case Ok(_) => NoneFails(env, readable, nodes, data, rows)
            case Err(e) =>
              exists k | 0 <= k < |rows| ::
                FirstToFail(env, readable, nodes, data, rows, k) && e == ReadArtifact(rows[k].id)
            case Crash => false
    decreases |rows|
  {
    hide CollectedArtifacts, ArtifactFails, FirstToFail, Ids, Read, PathOf;
    if rows == [] {
      NothingCollected(env, readable, nodes, data);
    } else {
      var front, last := rows[..|rows| - 1], rows[|rows| - 1];
      ArtifactsStopExactly(env, readable, nodes, data, front);
      assert rows == front + [last];
      match CollectedArtifacts(env, readable, nodes, data, front)
      case Ok(_) =>
        CollectedStep(env, readable, nodes, data, front, last);
        LastRowRead(env, readable, nodes, data, front, last);
        if ArtifactFails(env, readable, nodes, data, last.id) {
          assert FirstToFail(env, readable, nodes, data, rows, |front|);
        }
      case Err(e) =>
        CollectedStopsAtAFailure(env, readable, nodes, data, rows, |front|);
        var k :| 0 <= k < |front| && FirstToFail(env, readable, nodes, data, front, k)
                 && e == ReadArtifact(front[k].id);
        FirstToFailStays(env, readable, nodes, data, front, last, k);
    }
  }

  lemma LastRowRead(env: Platform, readable: Path -> bool, nodes: Nodes, data: Path, front: seq<Row>, last: Row)
    requires NoneFails(env, readable, nodes, data, front)
    ensures last.id in Ids(front) ==> !ArtifactFails(env, readable, nodes, data, last.id)
    ensures ArtifactFails(env, readable, nodes, data, last.id) <==>
            Read(nodes, readable, PathOf(env, data, ArtifactBytes(last.id))).Failure?
    ensures ArtifactFails(env, readable, nodes, data, last.id) ==>
              FirstToFail(env, readable, nodes, data, front + [last], |front|)
  {
    hide Read, PathOf;
    if last.id in Ids(front) {
      var row :| row in front && row.id == last.id;
    }
  }

  lemma FirstToFailStays(env: Platform, readable: Path -> bool, nodes: Nodes, data: Path, front: seq<Row>, last: Row,
                         k: nat)
    requires FirstToFail(env, readable, nodes, data, front, k)
    ensures k < |front| && (front + [last])[k] == front[k]
    ensures FirstToFail(env, readable, nodes, data, front + [last], k)
  {
    hide ArtifactFails;
    assert forall j | 0 <= j < |front| :: (front + [last])[j] == front[j];
  }

  // ----- Entries -----

  const ARTIFACT_PREFIX := "artifact-"
  const MAX_ENTRIES := 1024

  /** An entry with a fixed name, present when there is something to put in it. */
  datatype Slot = Slot(name: string, kind: Kind, content: Option<Bytes>)

  /** The fixed entries, in the order they are collected. */
  function Slots(snapshot: Snapshot, files: Files): seq<Slot> {
    [Slot("database", Database, Some(snapshot.database)),
     Slot("database-wal", DatabaseWal, snapshot.wal),
     Slot("master-key", MasterKey, files.masterKey),
     Slot("system-master-key", SystemMasterKey, files.systemKey),
     Slot("instance", InstanceMarker, files.marker),
     Slot("tls-certificate", TlsCertificate, files.certificate),
     Slot("tls-private-key", TlsPrivateKey, files.privateKey)]
  }

  function EntryOf(slot: Slot): seq<Entry> {
    match slot.content
    case None => []
    case Some(bytes) => [Entry(slot.name, slot.kind, bytes)]
  }

  /** The entries of the slots from the k-th on, followed by `rest`. */
  function PackFrom(slots: seq<Slot>, k: nat, rest: seq<Entry>): seq<Entry>
    requires k <= |slots|
    decreases |slots| - k
  {
    if k == |slots| then rest else EntryOf(slots[k]) + PackFrom(slots, k + 1, rest)
  }

  function ArtifactEntries(env: Platform, artifacts: seq<(Uuid, Bytes)>): seq<Entry> {
    if artifacts == [] then []
    else [Entry(ARTIFACT_PREFIX + env.format(artifacts[0].0), ArtifactFile, artifacts[0].1)]
         + ArtifactEntries(env, artifacts[1..])
  }

  /** The entries of a package, in the order they are collected. */
  function Entries(env: Platform, snapshot: Snapshot, files: Files): seq<Entry> {
    PackFrom(Slots(snapshot, files), 0, ArtifactEntries(env, files.artifacts))
  }

  /** The first entry of a name. */
  function Find(entries: seq<Entry>, name: string): Option<Bytes> {
    if entries == [] then None
    else if entries[0].name == name then Some(entries[0].content) else Find(entries[1..], name)
  }

  predicate UniqueNames(entries: seq<Entry>) {
    entries == [] || (Find(entries[1..], entries[0].name).None? && UniqueNames(entries[1..]))
  }

  /** The artifact an entry name stands for. */
  function ArtifactId(env: Platform, name: string): Option<Uuid> {
    if ARTIFACT_PREFIX <= name then env.parse(name[|ARTIFACT_PREFIX|..]) else None
  }

  /** The artifacts of a package, up to the first entry whose name does not stand for one. */
  function ArtifactsOf(env: Platform, entries: seq<Entry>): seq<(Uuid, Bytes)> {
    if entries == [] then []
    else if entries[0].kind != ArtifactFile then ArtifactsOf(env, entries[1..])
    else
      match ArtifactId(env, entries[0].name)
      case None => []
      case Some(id) => [(id, entries[0].content)] + ArtifactsOf(env, entries[1..])
  }

  /** The first artifact entry whose name does not stand for an artifact. */
  function BadName(env: Platform, entries: seq<Entry>): Option<string> {
    if entries == [] then None
    else if entries[0].kind == ArtifactFile && ArtifactId(env, entries[0].name).None? then Some(entries[0].name)
    else BadName(env, entries[1..])
  }

  /** What a restore reads out of a package. */
  function Unpacked(env: Platform, entries: seq<Entry>): Files {
    Files(Find(entries, "master-key"), Find(entries, "system-master-key"), Find(entries, "instance"),
          Find(entries, "tls-certificate"), Find(entries, "tls-private-key"), ArtifactsOf(env, entries))
  }

  function NonEmpty(wal: Option<Bytes>): Option<Bytes> {
    if wal == Some([]) then None else wal
  }

  function SnapshotOf(entries: seq<Entry>): Option<Snapshot> {
    match Find(entries, "database")
    case None => None
    case Some(database) => Some(Snapshot(database, NonEmpty(Find(entries, "database-wal"))))
  }

  /** Whatever a package holds, the log read from it is never an empty one, and is otherwise what is there. */
  lemma LogIsNeverEmpty(entries: seq<Entry>)
    ensures SnapshotOf(entries).Some? <==> Find(entries, "database").Some?
    ensures SnapshotOf(entries).Some? ==>
              var wal := Find(entries, "database-wal");
              && SnapshotOf(entries).value.wal != Some([])
              && (SnapshotOf(entries).value.wal.None? <==> wal.None? || wal.value == [])
              && (SnapshotOf(entries).value.wal.Some? ==> SnapshotOf(entries).value.wal == wal)
  {
    hide Find;
  }

  // ----- Unpacking undoes packing -----

  ghost predicate DistinctNames(slots: seq<Slot>) {
    forall i, j | 0 <= i < j < |slots| :: slots[i].name != slots[j].name
  }

  lemma Prepended(slot: Slot, rest: seq<Entry>)
    ensures var entries := EntryOf(slot) + rest;
            if slot.content.None? then entries == rest
            else entries != [] && entries[0] == Entry(slot.name, slot.kind, slot.content.value) && entries[1..] == rest
  {
    if slot.content.None? {
      assert EntryOf(slot) + rest == rest;
    }
  }

  lemma {:induction false} FindPacked(slots: seq<Slot>, k: nat, rest: seq<Entry>, j: nat)
    requires DistinctNames(slots) && k <= |slots| && j < |slots| && Find(rest, slots[j].name).None?
    ensures Find(PackFrom(slots, k, rest), slots[j].name) == if k <= j then slots[j].content else None
    decreases |slots| - k
  {
    if k < |slots| {
      FindPacked(slots, k + 1, rest, j);
      var tail := PackFrom(slots, k + 1, rest);
      Prepended(slots[k], tail);
    }
  }

  lemma {:induction false} PackedNamesAreUnique(slots: seq<Slot>, k: nat, rest: seq<Entry>)
    requires DistinctNames(slots) && k <= |slots| && UniqueNames(rest)
    requires forall j | 0 <= j < |slots| :: Find(rest, slots[j].name).None?
    ensures UniqueNames(PackFrom(slots, k, rest))
    decreases |slots| - k
  {
    if k < |slots| {
      PackedNamesAreUnique(slots, k + 1, rest);
      FindPacked(slots, k + 1, rest, k);
      var tail := PackFrom(slots, k + 1, rest);
      Prepended(slots[k], tail);
    }
  }

  function Count(content: Option<Bytes>): nat {
    if content.Some? then 1 else 0
  }

  function CountFrom(slots: seq<Slot>, k: nat): nat
    requires k <= |slots|
    decreases |slots| - k
  {
    if k == |slots| then 0 else Count(slots[k].content) + CountFrom(slots, k + 1)
  }

  lemma SlotIsNoArtifact(env: Platform, slot: Slot, rest: seq<Entry>)
    requires slot.kind != ArtifactFile
    ensures ArtifactsOf(env, EntryOf(slot) + rest) == ArtifactsOf(env, rest)
    ensures BadName(env, EntryOf(slot) + rest) == BadName(env, rest)
    ensures |EntryOf(slot) + rest| == Count(slot.content) + |rest|
  {
    Prepended(slot, rest);
  }

  lemma {:induction false} SlotsAreNoArtifacts(env: Platform, slots: seq<Slot>, k: nat, rest: seq<Entry>)
    requires k <= |slots| && forall slot <- slots :: slot.kind != ArtifactFile
    ensures ArtifactsOf(env, PackFrom(slots, k, rest)) == ArtifactsOf(env, rest)
    ensures BadName(env, PackFrom(slots, k, rest)) == BadName(env, rest)
    ensures |PackFrom(slots, k, rest)| == CountFrom(slots, k) + |rest|
    decreases |slots| - k
  {
    hide ArtifactsOf, BadName, EntryOf;
    if k < |slots| {
      SlotsAreNoArtifacts(env, slots, k + 1, rest);
      SlotIsNoArtifact(env, slots[k], PackFrom(slots, k + 1, rest));
    }
  }

  lemma {:induction false} ArtifactEntriesUnpack(env: Platform, artifacts: seq<(Uuid, Bytes)>, name: string)
    requires Lawful(env)
    ensures var entries := ArtifactEntries(env, artifacts);
            && ArtifactsOf(env, entries) == artifacts && BadName(env, entries).None? && |entries| == |artifacts|
            && (!(ARTIFACT_PREFIX <= name) ==> Find(entries, name).None?)
  {
    if artifacts != [] {
      ArtifactEntriesUnpack(env, artifacts[1..], name);
      var entries := ArtifactEntries(env, artifacts);
      assert entries[1..] == ArtifactEntries(env, artifacts[1..]);
      assert entries[0].name[|ARTIFACT_PREFIX|..] == env.format(artifacts[0].0);
    }
  }

  lemma {:induction false} ArtifactNameAbsent(env: Platform, artifacts: seq<(Uuid, Bytes)>, id: Uuid)
    requires Lawful(env) && forall a <- artifacts :: a.0 != id
    ensures Find(ArtifactEntries(env, artifacts), ARTIFACT_PREFIX + env.format(id)).None?
  {
    if artifacts != [] {
      ArtifactNameAbsent(env, artifacts[1..], id);
      var name, other := ARTIFACT_PREFIX + env.format(id), ARTIFACT_PREFIX + env.format(artifacts[0].0);
      assert name[|ARTIFACT_PREFIX|..] == env.format(id) && other[|ARTIFACT_PREFIX|..] == env.format(artifacts[0].0);
      assert env.parse(env.format(id)) != env.parse(env.format(artifacts[0].0));
      assert ArtifactEntries(env, artifacts)[1..] == ArtifactEntries(env, artifacts[1..]);
    }
  }

  lemma {:induction false} ArtifactNamesAreUnique(env: Platform, artifacts: seq<(Uuid, Bytes)>)
    requires Lawful(env) && UniqueIds(artifacts)
    ensures UniqueNames(ArtifactEntries(env, artifacts))
  {
    if artifacts != [] {
      assert forall a <- artifacts[1..] :: a.0 != artifacts[0].0;
      ArtifactNameAbsent(env, artifacts[1..], artifacts[0].0);
      ArtifactNamesAreUnique(env, artifacts[1..]);
      assert ArtifactEntries(env, artifacts)[1..] == ArtifactEntries(env, artifacts[1..]);
    }
  }

  /** How many entries a restore writes beside the database. */
  function RestoredCount(f: Files): nat {
    Count(f.masterKey) + Count(f.systemKey) + Count(f.marker) + Count(f.certificate) + Count(f.privateKey)
    + |f.artifacts|
  }

  /** The seven fixed names differ from each other and from the name of every artifact. */
  lemma SlotNamesDiffer(env: Platform, s: Snapshot, f: Files)
    requires Lawful(env)
    ensures DistinctNames(Slots(s, f))
    ensures forall j | 0 <= j < 7 :: Find(ArtifactEntries(env, f.artifacts), Slots(s, f)[j].name).None?
  {
    assert "database"[0] == 'd' && "database-wal"[0] == 'd' && |"database"| != |"database-wal"|;
    assert "master-key"[0] == 'm' && "system-master-key"[0] == 's' && "instance"[0] == 'i';
    assert "tls-certificate"[0] == 't' && "tls-private-key"[0] == 't' && "tls-certificate"[4] != "tls-private-key"[4];
    forall j | 0 <= j < 7 ensures Find(ArtifactEntries(env, f.artifacts), Slots(s, f)[j].name).None? {
      ArtifactEntriesUnpack(env, f.artifacts, Slots(s, f)[j].name);
    }
  }

  lemma FindInPackage(env: Platform, s: Snapshot, f: Files, j: nat)
    requires Lawful(env) && j < 7
    ensures Find(Entries(env, s, f), Slots(s, f)[j].name) == Slots(s, f)[j].content
  {
    hide PackFrom, ArtifactEntries, Find, DistinctNames;
    SlotNamesDiffer(env, s, f);
    FindPacked(Slots(s, f), 0, ArtifactEntries(env, f.artifacts), j);
  }

  /** Reading a collected package gives back exactly what was collected. */
  lemma UnpackingUndoesPacking(env: Platform, s: Snapshot, f: Files)
    requires Lawful(env) && s.wal != Some([])
    ensures Unpacked(env, Entries(env, s, f)) == f
    ensures SnapshotOf(Entries(env, s, f)) == Some(s)
    ensures BadName(env, Entries(env, s, f)).None?
  {
    hide Entries, Find, ArtifactsOf, BadName, Lawful;
    FindInPackage(env, s, f, 0);
    FindInPackage(env, s, f, 1);
    FindInPackage(env, s, f, 2);
    FindInPackage(env, s, f, 3);
    FindInPackage(env, s, f, 4);
    FindInPackage(env, s, f, 5);
    FindInPackage(env, s, f, 6);
    ArtifactsInPackage(env, s, f);
  }

  lemma ArtifactsInPackage(env: Platform, s: Snapshot, f: Files)
    requires Lawful(env)
    ensures ArtifactsOf(env, Entries(env, s, f)) == f.artifacts && BadName(env, Entries(env, s, f)).None?
  {
    hide PackFrom, ArtifactEntries, ArtifactsOf, BadName, Slots;
    FixedSlots(s, f);
    SlotsAreNoArtifacts(env, Slots(s, f), 0, ArtifactEntries(env, f.artifacts));
    ArtifactEntriesUnpack(env, f.artifacts, "");
  }

  lemma SlotsCount(s: Snapshot, f: Files)
    ensures CountFrom(Slots(s, f), 0) + |f.artifacts| == 1 + Count(s.wal) + RestoredCount(f)
  {
    var slots := Slots(s, f);
    assert CountFrom(slots, 6) == Count(f.privateKey) + CountFrom(slots, 7);
    assert CountFrom(slots, 4) == Count(f.marker) + Count(f.certificate) + CountFrom(slots, 6) by {
      assert CountFrom(slots, 5) == Count(f.certificate) + CountFrom(slots, 6);
    }
    assert CountFrom(slots, 2) == Count(f.masterKey) + Count(f.systemKey) + CountFrom(slots, 4) by {
      assert CountFrom(slots, 3) == Count(f.systemKey) + CountFrom(slots, 4);
    }
    assert CountFrom(slots, 1) == Count(s.wal) + CountFrom(slots, 2);
  }

  /** A collected package never has two entries of one name, and its entries are the one or two of the
      database and those that a restore counts. */
  lemma PackageEntriesAddUp(env: Platform, s: Snapshot, f: Files)
    requires Lawful(env) && UniqueIds(f.artifacts)
    ensures UniqueNames(Entries(env, s, f))
    ensures |Entries(env, s, f)| == 1 + Count(s.wal) + RestoredCount(f)
  {
    hide Slots, PackFrom, CountFrom, ArtifactEntries, UniqueNames, UniqueIds, Find, Lawful, DistinctNames;
    hide RestoredCount;
    var slots, rest := Slots(s, f), ArtifactEntries(env, f.artifacts);
    SlotNamesDiffer(env, s, f);
    ArtifactNamesAreUnique(env, f.artifacts);
    FixedSlots(s, f);
    PackedNamesAreUnique(slots, 0, rest);
    SlotsAreNoArtifacts(env, slots, 0, rest);
    ArtifactEntriesUnpack(env, f.artifacts, "");
    SlotsCount(s, f);
  }

  lemma FixedSlots(s: Snapshot, f: Files)
    ensures |Slots(s, f)| == 7 && forall slot <- Slots(s, f) :: slot.kind != ArtifactFile
  {
  }

  // ----- Collecting, step by step -----

  lemma {:induction false} ArtifactEntriesSnoc(env: Platform, artifacts: seq<(Uuid, Bytes)>, id: Uuid, bytes: Bytes)
    ensures ArtifactEntries(env, artifacts + [(id, bytes)])
         == ArtifactEntries(env, artifacts) + [Entry(ARTIFACT_PREFIX + env.format(id), ArtifactFile, bytes)]
  {
    if artifacts != [] {
      ArtifactEntriesSnoc(env, artifacts[1..], id, bytes);
      assert (artifacts + [(id, bytes)])[1..] == artifacts[1..] + [(id, bytes)];
    } else {
      assert (artifacts + [(id, bytes)])[1..] == [];
    }
  }

  lemma {:induction false} CollectedStopsAtAFailure(
      env: Platform, readable: Path -> bool, nodes: Nodes, data: Path, rows: seq<Row>, k: nat)
    requires k <= |rows| && !CollectedArtifacts(env, readable, nodes, data, rows[..k]).Ok?
    ensures CollectedArtifacts(env, readable, nodes, data, rows)
         == CollectedArtifacts(env, readable, nodes, data, rows[..k])
    decreases |rows|
  {
    if k == |rows| {
      assert rows[..k] == rows;
    } else {
      assert rows[..|rows| - 1][..k] == rows[..k];
      CollectedStopsAtAFailure(env, readable, nodes, data, rows[..|rows| - 1], k);
    }
  }

  lemma NothingCollected(env: Platform, readable: Path -> bool, nodes: Nodes, data: Path)
    ensures CollectedArtifacts(env, readable, nodes, data, []) == Ok([])
    ensures ArtifactEntries(env, []) == [] && Ids([]) == {}
  {
  }

  /** Goes through the rows of one state, after those `visited` before. */
  method CollectState(env: Platform, readable: Path -> bool, nodes: Nodes, data: Path, list: seq<Row>,
                      entries: seq<Entry>, seenBefore: set<Uuid>,
                      ghost start: seq<Entry>, ghost visited: seq<Row>, ghost artifacts: seq<(Uuid, Bytes)>)
    returns (r: Outcome<seq<Entry>>, seen: set<Uuid>, ghost after: seq<(Uuid, Bytes)>)
    requires CollectedArtifacts(env, readable, nodes, data, visited) == Ok(artifacts)
    requires entries == start + ArtifactEntries(env, artifacts) && seenBefore == Ids(visited)
    ensures match CollectedArtifacts(env, readable, nodes, data, visited + list)
            case Ok(collected) =>
              after == collected && r == Ok(start + ArtifactEntries(env, after)) && seen == Ids(visited + list)
            case Err(e) => r == Err(e)
            case Crash => false
  {
    hide CollectedArtifacts, ArtifactEntries, Ids, Read, PathOf;
    var collected := entries;
    seen, after := seenBefore, artifacts;
    assert visited + list[..0] == visited;
    for j := 0 to |list|
      invariant CollectedArtifacts(env, readable, nodes, data, visited + list[..j]) == Ok(after)
      invariant collected == start + ArtifactEntries(env, after) && seen == Ids(visited + list[..j])
    {
      var row := list[j];
      CollectedStep(env, readable, nodes, data, visited + list[..j], row);
      assert visited + list[..j] + [row] == visited + list[..j + 1] == (visited + list)[..|visited| + j + 1];
      if row.id !in seen {
        seen := seen + {row.id};
        match Read(nodes, readable, PathOf(env, data, ArtifactBytes(row.id)))
        case Bytes(bytes) =>
          ArtifactEntriesSnoc(env, after, row.id, bytes);
          after := after + [(row.id, bytes)];
          collected := collected + [Entry(ARTIFACT_PREFIX + env.format(row.id), ArtifactFile, bytes)];
        case NotFound =>
        case Failure =>
          CollectedStopsAtAFailure(env, readable, nodes, data, visited + list, |visited| + j + 1);
          return Err(ReadArtifact(row.id)), seen, after;
      }
    }
    assert list[..|list|] == list;
    return Ok(collected), seen, after;
  }

  function ListedUpTo(rows: seq<Row>, i: nat): seq<Row> {
    (if i > 0 then InState(rows, Uploading) else [])
    + (if i > 1 then InState(rows, Ready) else []) + (if i > 2 then InState(rows, Rejected) else [])
  }

  lemma ListedPrefix(rows: seq<Row>, i: nat)
    ensures |ListedUpTo(rows, i)| <= |Listed(rows)| && Listed(rows)[..|ListedUpTo(rows, i)|] == ListedUpTo(rows, i)
  {
  }

  /** Adds one entry per listed artifact whose file exists, going through the states in turn and through
      each identifier once. */
  method CollectArtifactEntries(env: Platform, readable: Path -> bool, nodes: Nodes, data: Path,
                                rows: Option<seq<Row>>, entries: seq<Entry>)
    returns (r: Outcome<seq<Entry>>)
    ensures r == if rows.None? then Err(ListArtifacts) else
                   match CollectedArtifacts(env, readable, nodes, data, Listed(rows.value))
                   case Ok(artifacts) => Ok(entries + ArtifactEntries(env, artifacts))
                   case Err(e) => Err(e)
                   case Crash => Crash
  {
    hide CollectedArtifacts, ArtifactEntries, Ids, InState;
    if rows.None? {
      return Err(ListArtifacts);
    }
    NothingCollected(env, readable, nodes, data);
    var states := [Uploading, Ready, Rejected];
    r := Ok(entries);
    assert entries + [] == entries;
    var seen: set<Uuid> := {};
    ghost var visited: seq<Row>, artifacts: seq<(Uuid, Bytes)> := [], [];
    for i := 0 to 3
      invariant visited == ListedUpTo(rows.value, i)
      invariant CollectedArtifacts(env, readable, nodes, data, visited) == Ok(artifacts)
      invariant r == Ok(entries + ArtifactEntries(env, artifacts)) && seen == Ids(visited)
    {
      var list := InState(rows.value, states[i]);
      r, seen, artifacts := CollectState(env, readable, nodes, data, list, r.value, seen, entries, visited, artifacts);
      visited := visited + list;
      assert visited == ListedUpTo(rows.value, i + 1);
      ListedPrefix(rows.value, i + 1);
      if !r.Ok? {
        CollectedStopsAtAFailure(env, readable, nodes, data, Listed(rows.value), |visited|);
        return;
      }
    }
  }

  method CollectTlsEntries(env: Platform, readable: Path -> bool, nodes: Nodes, data: Path, entries: seq<Entry>)
    returns (r: Outcome<seq<Entry>>)
    ensures r == match CollectedTls(env, readable, nodes, data)
                 case Ok(tls) => Ok(entries + EntryOf(Slot("tls-certificate", TlsCertificate, tls.0))
                                            + EntryOf(Slot("tls-private-key", TlsPrivateKey, tls.1)))
                 case Err(e) => Err(e)
                 case Crash => Crash
  {
    var certificatePath, keyPath := PathOf(env, data, CertificateFile), PathOf(env, data, PrivateKeyFile);
    match (Read(nodes, readable, certificatePath), Read(nodes, readable, keyPath))
    case (Bytes(certificate), Bytes(key)) =>
      var withCertificate := entries + [Entry("tls-certificate", TlsCertificate, certificate)];
      r := Ok(withCertificate + [Entry("tls-private-key", TlsPrivateKey, key)]);
    case (NotFound, NotFound) =>
      assert entries + [] + [] == entries;
      r := Ok(entries);
    case (Bytes(_), _) =>
      r := Err(ReadState(keyPath));
    case (_, _) =>
      r := Err(ReadState(certificatePath));
  }

  /** The entries of the first k slots, pushed one after the other. */
  function Pushed(slots: seq<Slot>, k: nat): seq<Entry>
    requires k <= |slots|
  {
    if k == 0 then [] else Pushed(slots, k - 1) + EntryOf(slots[k - 1])
  }

  lemma {:induction false} PushedThenPacked(slots: seq<Slot>, k: nat, rest: seq<Entry>)
    requires k <= |slots|
    ensures Pushed(slots, k) + PackFrom(slots, k, rest) == PackFrom(slots, 0, rest)
  {
    if k > 0 {
      PushedThenPacked(slots, k - 1, rest);
    }
  }

  lemma FixedEntriesInOrder(slots: seq<Slot>, rest: seq<Entry>)
    requires |slots| == 7
    ensures PackFrom(slots, 0, rest)
         == EntryOf(slots[0]) + EntryOf(slots[1]) + EntryOf(slots[2]) + EntryOf(slots[3]) + EntryOf(slots[4])
            + EntryOf(slots[5]) + EntryOf(slots[6]) + rest
  {
    hide EntryOf;
    assert Pushed(slots, 2) == EntryOf(slots[0]) + EntryOf(slots[1]) by {
      assert Pushed(slots, 1) == EntryOf(slots[0]);
    }
    assert Pushed(slots, 4) == Pushed(slots, 2) + EntryOf(slots[2]) + EntryOf(slots[3]);
    assert Pushed(slots, 6) == Pushed(slots, 4) + EntryOf(slots[4]) + EntryOf(slots[5]);
    assert Pushed(slots, 7) == Pushed(slots, 6) + EntryOf(slots[6]);
    PushedThenPacked(slots, 7, rest);
  }

  /** Adds the envelope of the master key when it loads. */
  method CollectKeyEntry(env: Platform, readable: Path -> bool, nodes: Nodes, data: Path, envelope: Envelope,
                         entries: seq<Entry>)
    returns (r: seq<Entry>)
    ensures var content := CollectedKey(env, readable, nodes, data, envelope);
            r == entries + EntryOf(if envelope == Passphrase then Slot("master-key", MasterKey, content)
                                   else Slot("system-master-key", SystemMasterKey, content))
  {
    r := entries;
    var path := PathOf(env, data, if envelope == Passphrase then KeyFile else SystemKeyFile);
    var key := Read(nodes, readable, path);
    if key.Bytes? && env.loads(envelope, key.bytes) {
      r := entries + [if envelope == Passphrase then Entry("master-key", MasterKey, key.bytes)
                      else Entry("system-master-key", SystemMasterKey, key.bytes)];
    }
  }

  /** Collects everything a backup takes along, one entry after the other. */
  method CollectBackupEntries(env: Platform, readable: Path -> bool, nodes: Nodes, data: Path,
                              snapshot: Snapshot, rows: Option<seq<Row>>)
    returns (r: Outcome<seq<Entry>>)
    ensures r == match Collected(env, readable, nodes, data, rows)
                 case Ok(files) => Ok(Entries(env, snapshot, files))
                 case Err(e) => Err(e)
                 case Crash => Crash
  {
    hide CollectedArtifacts, ArtifactEntries, Listed, PackFrom, CollectedKey, CollectedTls;
    var entries := [Entry("database", Database, snapshot.database)];
    if snapshot.wal.Some? {
      entries := entries + [Entry("database-wal", DatabaseWal, snapshot.wal.value)];
    }
    assert entries == EntryOf(Slot("database", Database, Some(snapshot.database)))
                      + EntryOf(Slot("database-wal", DatabaseWal, snapshot.wal));
    entries := CollectKeyEntry(env, readable, nodes, data, Passphrase, entries);
    entries := CollectKeyEntry(env, readable, nodes, data, System, entries);
    var markerPath := PathOf(env, data, MarkerFile);
    var marker := Read(nodes, readable, markerPath);
    if !marker.Bytes? {
      return Err(ReadState(markerPath));
    }
    entries := entries + [Entry("instance", InstanceMarker, marker.bytes)];
    r := CollectTlsEntries(env, readable, nodes, data, entries);
    if r.Ok? {
      r := CollectArtifactEntries(env, readable, nodes, data, rows, r.value);
    }
    if r.Ok? {
      var files := Collected(env, readable, nodes, data, rows).value;
      FixedEntriesInOrder(Slots(snapshot, files), ArtifactEntries(env, files.artifacts));
    }
  }
}
