/** Backing up a data directory into a package and restoring one: the whole runs, and what they leave
    behind when they fail or are cut off at any step. */
module BackupRestore {
  import opened Wrappers

  import opened DataDirectory
  import opened BackupPackage
  import opened RestoreSteps
  import opened PendingMarker

  // ----- The artifact consistency check -----

  /** The listed rows that are ready but have no file. */
  function Missing(env: Platform, nodes: Nodes, data: Path, rows: seq<Row>): seq<Uuid> {
    if rows == [] then [] else
      var last := rows[|rows| - 1];
      Missing(env, nodes, data, rows[..|rows| - 1])
      + if last.state == Ready && FileAt(nodes, PathOf(env, data, ArtifactBytes(last.id))).None? then [last.id] else []
  }

  /** The artifacts of a package that have no row. */
  function Orphans(rows: seq<Row>, artifacts: seq<(Uuid, Bytes)>): seq<Uuid> {
    if artifacts == [] then [] else
      var last := artifacts[|artifacts| - 1];
      Orphans(rows, artifacts[..|artifacts| - 1]) + if last.0 !in Ids(rows) then [last.0] else []
  }

  /** The outcome of the check when nothing fails while making it. */
  function Verdict(env: Platform, nodes: Nodes, data: Path, entries: seq<Entry>, snapshot: Snapshot): Outcome<()> {
    match env.rows(snapshot)
    case None => Err(ArtifactConsistencyOpen)
    case Some(rows) =>
      match BadName(env, entries)
      case Some(name) => Err(InvalidArtifactEntryName(name))
      case None =>
        var missing := Missing(env, nodes, data, Listed(rows));
        var orphan := Orphans(Listed(rows), ArtifactsOf(env, entries));
        if missing == [] && orphan == [] then Ok(()) else Err(ArtifactConsistency(missing, orphan))
  }

  lemma {:induction false} MissingExactly(env: Platform, nodes: Nodes, data: Path, rows: seq<Row>, id: Uuid)
    ensures id in Missing(env, nodes, data, rows)
       <==> Row(id, Ready) in rows && FileAt(nodes, PathOf(env, data, ArtifactBytes(id))).None?
  {
    if rows != [] {
      MissingExactly(env, nodes, data, rows[..|rows| - 1], id);
      assert rows == rows[..|rows| - 1] + [rows[|rows| - 1]];
    }
  }

  lemma {:induction false} OrphansExactly(rows: seq<Row>, artifacts: seq<(Uuid, Bytes)>, id: Uuid)
    ensures id in Orphans(rows, artifacts) <==> HasId(artifacts, id) && id !in Ids(rows)
  {
    if artifacts != [] {
      var front, last := artifacts[..|artifacts| - 1], artifacts[|artifacts| - 1];
      OrphansExactly(rows, front, id);
      assert artifacts == front + [last];
      assert HasId(artifacts, id) <==> HasId(front, id) || last.0 == id by {
        if HasId(front, id) {
          var a :| a in front && a.0 == id;
          assert a in artifacts;
        }
        if last.0 == id {
          assert last in artifacts;
        }
      }
    }
  }

  lemma ListedIds(rows: seq<Row>, id: Uuid)
    ensures id in Ids(Listed(rows)) <==> id in Ids(rows)
  {
    if id in Ids(rows) {
      var row :| row in rows && row.id == id;
      ListedExactly(rows, row);
    }
    if id in Ids(Listed(rows)) {
      var row :| row in Listed(rows) && row.id == id;
      ListedExactly(rows, row);
    }
  }

  /** The check accepts exactly when every ready row has a file and every artifact of the package a row. */
  lemma CheckIsExact(env: Platform, nodes: Nodes, data: Path, entries: seq<Entry>, snapshot: Snapshot)
    requires BadName(env, entries).None?
    ensures Verdict(env, nodes, data, entries, snapshot) == Ok(()) <==>
            && env.rows(snapshot).Some?
            && (forall id: Uuid | Row(id, Ready) in env.rows(snapshot).value ::
                  FileAt(nodes, PathOf(env, data, ArtifactBytes(id))).Some?)
            && (forall a <- ArtifactsOf(env, entries) :: a.0 in Ids(env.rows(snapshot).value))
  {
    if env.rows(snapshot).Some? {
      var rows := env.rows(snapshot).value;
      var artifacts := ArtifactsOf(env, entries);
      var missing, orphan := Missing(env, nodes, data, Listed(rows)), Orphans(Listed(rows), artifacts);
      forall id: Uuid
        ensures id in missing
           <==> Row(id, Ready) in rows && FileAt(nodes, PathOf(env, data, ArtifactBytes(id))).None?
      {
        MissingExactly(env, nodes, data, Listed(rows), id);
        ListedExactly(rows, Row(id, Ready));
      }
      forall id: Uuid ensures id in orphan <==> HasId(artifacts, id) && id !in Ids(rows) {
        OrphansExactly(Listed(rows), artifacts, id);
        ListedIds(rows, id);
      }
      assert missing == [] <==> forall id: Uuid :: id !in missing by {
        if missing != [] {
          assert missing[0] in missing;
        }
      }
      assert orphan == [] <==> forall id: Uuid :: id !in orphan by {
        if orphan != [] {
          assert orphan[0] in orphan;
        }
      }
    }
  }

  /** What the check says is what is wrong: the rows cannot be read, an artifact entry has a bad name, or the
      two lists hold exactly the ready rows without a file and the artifacts without a row. */
  lemma VerdictTellsExactly(env: Platform, nodes: Nodes, data: Path, entries: seq<Entry>, snapshot: Snapshot)
    ensures var verdict, rows := Verdict(env, nodes, data, entries, snapshot), env.rows(snapshot);
            && !verdict.Crash?
            && (rows.None? <==> verdict == Err(ArtifactConsistencyOpen))
            && (forall name :: verdict == Err(InvalidArtifactEntryName(name)) <==>
                                 rows.Some? && BadName(env, entries) == Some(name))
            && (verdict.Err? && verdict.error.ArtifactConsistency? ==>
                  && rows.Some? && BadName(env, entries).None?
                  && (forall id: Uuid :: id in verdict.error.missing <==>
                        Row(id, Ready) in rows.value && FileAt(nodes, PathOf(env, data, ArtifactBytes(id))).None?)
                  && (forall id: Uuid :: id in verdict.error.orphan <==>
                        HasId(ArtifactsOf(env, entries), id) && id !in Ids(rows.value)))
            && (verdict.Err? ==>
                  || verdict == Err(ArtifactConsistencyOpen) || verdict.error.InvalidArtifactEntryName?
                  || verdict.error.ArtifactConsistency?)
  {
    hide PathOf, FileAt, Listed, Ids, HasId, Missing, Orphans;
    var verdict, rows := Verdict(env, nodes, data, entries, snapshot), env.rows(snapshot);
    if verdict.Err? && verdict.error.ArtifactConsistency? {
      forall id: Uuid
        ensures id in verdict.error.missing <==>
                  Row(id, Ready) in rows.value && FileAt(nodes, PathOf(env, data, ArtifactBytes(id))).None?
      {
        MissingExactly(env, nodes, data, Listed(rows.value), id);
        ListedExactly(rows.value, Row(id, Ready));
      }
      forall id: Uuid
        ensures id in verdict.error.orphan <==> HasId(ArtifactsOf(env, entries), id) && id !in Ids(rows.value)
      {
        OrphansExactly(Listed(rows.value), ArtifactsOf(env, entries), id);
        ListedIds(rows.value, id);
      }
    }
  }

  /** The bad name is that of an artifact entry that stands for no artifact, and none is one that does. */
  lemma {:induction false} BadNameExactly(env: Platform, entries: seq<Entry>)
    ensures BadName(env, entries).None? <==>
            forall entry <- entries | entry.kind == ArtifactFile :: ArtifactId(env, entry.name).Some?
    ensures BadName(env, entries).Some? ==>
              exists k | 0 <= k < |entries| :: entries[k].kind == ArtifactFile
                                            && entries[k].name == BadName(env, entries).value
                                            && ArtifactId(env, entries[k].name).None?
                                            && BadName(env, entries[..k]).None?
  {
    hide ArtifactId;
    if entries != [] {
      assert entries == [entries[0]] + entries[1..];
      BadNameExactly(env, entries[1..]);
      if entries[0].kind == ArtifactFile && ArtifactId(env, entries[0].name).None? {
        assert entries[..0] == [];
      } else if BadName(env, entries).Some? {
        var k :| 0 <= k < |entries[1..]| && entries[1..][k].kind == ArtifactFile
                 && entries[1..][k].name == BadName(env, entries[1..]).value
                 && ArtifactId(env, entries[1..][k].name).None? && BadName(env, entries[1..][..k]).None?;
        assert entries[..k + 1][0] == entries[0] && entries[..k + 1][1..] == entries[1..][..k];
        assert entries[k + 1] == entries[1..][k];
      }
    }
  }

  lemma NothingRead(env: Platform)
    ensures ArtifactsOf(env, []) == [] && BadName(env, []).None?
  {
  }

  lemma NothingListed(env: Platform, nodes: Nodes, data: Path)
    ensures Missing(env, nodes, data, []) == [] && Ids([]) == {} && forall rows :: Orphans(rows, []) == []
  {
  }

  lemma OneMoreRow(env: Platform, nodes: Nodes, data: Path, rows: seq<Row>, i: nat)
    requires i < |rows|
    ensures Ids(rows[..i + 1]) == Ids(rows[..i]) + {rows[i].id}
    ensures Missing(env, nodes, data, rows[..i + 1])
         == Missing(env, nodes, data, rows[..i])
            + if rows[i].state == Ready && FileAt(nodes, PathOf(env, data, ArtifactBytes(rows[i].id))).None?
              then [rows[i].id] else []
  {
    assert rows[..i + 1][..i] == rows[..i] && rows[..i + 1] == rows[..i] + [rows[i]];
  }

  /** The check, made on the restored database and the files now in place. */
  method VerifyRestoredArtifactConsistency(nodes: Nodes, env: Platform, data: Path, entries: seq<Entry>,
                                           snapshot: Snapshot)
    returns (r: Outcome<()>)
    ensures r == Verdict(env, nodes, data, entries, snapshot)
  {
    hide ArtifactsOf, BadName, Listed, Missing, Orphans, Ids;
    NothingRead(env);
    NothingListed(env, nodes, data);
    var inspected := env.rows(snapshot);
    if inspected.None? {
      return Err(ArtifactConsistencyOpen);
    }
    var rows := Listed(inspected.value);
    var missing: seq<Uuid>, ids: set<Uuid> := [], {};
    for i := 0 to |rows|
      invariant missing == Missing(env, nodes, data, rows[..i]) && ids == Ids(rows[..i])
    {
      OneMoreRow(env, nodes, data, rows, i);
      if rows[i].state == Ready && FileAt(nodes, PathOf(env, data, ArtifactBytes(rows[i].id))).None? {
        missing := missing + [rows[i].id];
      }
      ids := ids + {rows[i].id};
    }
    assert rows[..|rows|] == rows;
    var orphan: seq<Uuid> := [];
    for i := 0 to |entries|
      invariant BadName(env, entries[..i]).None? && orphan == Orphans(rows, ArtifactsOf(env, entries[..i]))
    {
      var entry := entries[i];
      OneMoreEntry(env, entries, i);
      if entry.kind == ArtifactFile {
        var id := ArtifactId(env, entry.name);
        if id.None? {
          return Err(InvalidArtifactEntryName(entry.name));
        }
        OneMoreOrphan(rows, ArtifactsOf(env, entries[..i]), (id.value, entry.content));
        if id.value !in ids {
          orphan := orphan + [id.value];
        }
      }
    }
    assert entries[..|entries|] == entries;
    if missing != [] || orphan != [] {
      return Err(ArtifactConsistency(missing, orphan));
    }
    return Ok(());
  }

  lemma OneMoreOrphan(rows: seq<Row>, artifacts: seq<(Uuid, Bytes)>, a: (Uuid, Bytes))
    ensures Orphans(rows, artifacts + [a]) == Orphans(rows, artifacts) + if a.0 !in Ids(rows) then [a.0] else []
  {
    assert (artifacts + [a])[..|artifacts|] == artifacts;
  }

  lemma {:induction false} ArtifactsOfBoth(env: Platform, a: seq<Entry>, b: seq<Entry>)
    ensures BadName(env, a + b) == if BadName(env, a).Some? then BadName(env, a) else BadName(env, b)
    ensures ArtifactsOf(env, a + b)
         == if BadName(env, a).Some? then ArtifactsOf(env, a) else ArtifactsOf(env, a) + ArtifactsOf(env, b)
  {
    if a == [] {
      assert a + b == b;
    } else {
      ArtifactsOfBoth(env, a[1..], b);
      assert (a + b)[1..] == a[1..] + b;
    }
  }

  /** Reading one more entry: an artifact, something else, or a name that stops the reading. */
  lemma OneMoreEntry(env: Platform, entries: seq<Entry>, i: nat)
    requires i < |entries| && BadName(env, entries[..i]).None?
    ensures var entry := entries[i];
            var front, next := ArtifactsOf(env, entries[..i]), ArtifactsOf(env, entries[..i + 1]);
            if entry.kind != ArtifactFile then next == front && BadName(env, entries[..i + 1]).None?
            else
              match ArtifactId(env, entry.name)
              case None => ArtifactsOf(env, entries) == front && BadName(env, entries) == Some(entry.name)
              case Some(id) => next == front + [(id, entry.content)] && BadName(env, entries[..i + 1]).None?
  {
    hide ArtifactsOf, BadName;
    var entry := entries[i];
    assert entries[..i + 1] == entries[..i] + [entry] && entries == entries[..i] + entries[i..];
    assert entries[i..][0] == entry;
    ArtifactsOfBoth(env, entries[..i], [entry]);
    ArtifactsOfBoth(env, entries[..i], entries[i..]);
    OneEntry(env, entry);
    if entry.kind == ArtifactFile && ArtifactId(env, entry.name).None? {
      BadEntryFirst(env, entries[i..]);
    }
    assert ArtifactsOf(env, entries[..i]) + [] == ArtifactsOf(env, entries[..i]);
  }

  lemma OneEntry(env: Platform, entry: Entry)
    ensures if entry.kind != ArtifactFile then ArtifactsOf(env, [entry]) == [] && BadName(env, [entry]).None?
            else
              match ArtifactId(env, entry.name)
              case None => ArtifactsOf(env, [entry]) == [] && BadName(env, [entry]) == Some(entry.name)
              case Some(id) => ArtifactsOf(env, [entry]) == [(id, entry.content)] && BadName(env, [entry]).None?
  {
  }

  lemma BadEntryFirst(env: Platform, entries: seq<Entry>)
    requires entries != [] && entries[0].kind == ArtifactFile && ArtifactId(env, entries[0].name).None?
    ensures ArtifactsOf(env, entries) == [] && BadName(env, entries) == Some(entries[0].name)
  {
  }

  // ----- Restoring the files -----

  function Ended(s: Status, e: BackupError): Outcome<()>
    requires !s.Done?
  {
    if s.Failed? then Err(e) else Crash
  }

  function LivePair(env: Platform, data: Path, nodes: Nodes): Pair {
    Pair(FileAt(nodes, PathOf(env, data, DatabaseFile)), FileAt(nodes, PathOf(env, data, WalFile)))
  }

  /** The marker of a restore of this snapshot over this data directory. */
  function RestoreMarker(env: Platform, data: Path, nodes: Nodes, snapshot: Snapshot): Bytes {
    MarkerText(env.fingerprint, RestoredPair(snapshot), LivePair(env, data, nodes))
  }

  /** What a run has changed so far: some of the first changes of the list, in order. */
  ghost predicate Progress(env: Platform, data: Path, before: Nodes, now: Nodes, made: seq<Change>, all: seq<Change>) {
    Home(data, now) && ChangedBy(env, data, before, now, made) && made <= all
  }

  /** One more change made, or tried. */
  lemma StepMade(env: Platform, data: Path, before: Nodes, mid: Nodes, now: Nodes,
                 made: seq<Change>, landed: seq<Change>, rest: seq<Change>)
    requires ChangedBy(env, data, before, mid, made) && ChangedBy(env, data, mid, now, landed)
    requires Home(data, now) && landed <= rest
    ensures Progress(env, data, before, now, made + landed, made + rest)
  {
    ChangedTwice(env, data, before, mid, now, made, landed);
  }

  /** Replaces the log, or removes a stale one when there is none to put in its place. */
  method ReplaceWal(disk: Disk, env: Platform, data: Path, wal: Option<Bytes>, calm: bool)
    returns (s: Status, ghost landed: seq<Change>)
    requires Home(data, disk.nodes) && Lawful(env)
    modifies disk
    ensures Home(data, disk.nodes) && ChangedBy(env, data, old(disk.nodes), disk.nodes, landed)
    ensures landed == [if wal.Some? then Put(WalFile, wal.value) else Delete(WalFile)] || (landed == [] && !s.Done?)
    ensures calm && Clear(env, data, old(disk.nodes)) ==> s.Done?
  {
    if wal.Some? {
      s, landed := WriteRestoredFile(disk, env, data, WalFile, wal.value, calm);
    } else {
      s, landed := RemoveStaleSidecar(disk, env, data, WalFile, calm);
    }
  }

  lemma ClearAgain(env: Platform, data: Path, before: Nodes, now: Nodes, made: seq<Change>)
    requires Lawful(env) && ChangedBy(env, data, before, now, made)
    ensures Clear(env, data, before) ==> Clear(env, data, now)
  {
    if Clear(env, data, before) {
      ClearStays(env, data, before, now, made);
    }
  }

  /** The three changes between the two of the marker. */
  function PairAlone(snapshot: Snapshot): seq<Change> {
    [Put(DatabaseFile, snapshot.database),
     if snapshot.wal.Some? then Put(WalFile, snapshot.wal.value) else Delete(WalFile),
     Delete(ShmFile)]
  }

  /** Replaces the database, then its log, then removes the shared-memory index. */
  method ReplacePair(disk: Disk, env: Platform, data: Path, snapshot: Snapshot, calm: bool)
    returns (s: Status, ghost made: seq<Change>)
    requires Home(data, disk.nodes) && Lawful(env)
    modifies disk
    ensures Progress(env, data, old(disk.nodes), disk.nodes, made, PairAlone(snapshot))
    ensures s.Done? ==> made == PairAlone(snapshot)
    ensures calm && Clear(env, data, old(disk.nodes)) ==> s.Done?
  {
    hide ChangedBy, Home, Clear;
    ghost var before, all := disk.nodes, PairAlone(snapshot);
    s, made := WriteRestoredFile(disk, env, data, DatabaseFile, snapshot.database, calm);
    if !s.Done? {
      return;
    }
    ghost var landed: seq<Change>;
    ghost var mid := disk.nodes;
    ClearAgain(env, data, before, mid, made);
    s, landed := ReplaceWal(disk, env, data, snapshot.wal, calm);
    StepMade(env, data, before, mid, disk.nodes, made, landed, [all[1]]);
    made := made + landed;
    if !s.Done? {
      return;
    }
    mid := disk.nodes;
    ClearAgain(env, data, before, mid, made);
    s, landed := RemoveStaleSidecar(disk, env, data, ShmFile, calm);
    StepMade(env, data, before, mid, disk.nodes, made, landed, [all[2]]);
    made := made + landed;
  }

  /** Replaces the database and its log. The marker is there from before the first file is touched until
      after the last one is in place; a marker of an earlier run refuses the restore. */
  method RestoreDatabaseFiles(disk: Disk, env: Platform, data: Path, snapshot: Snapshot, trouble: Trouble)
    returns (r: Outcome<()>, ghost marker: Bytes, ghost made: seq<Change>)
    requires Home(data, disk.nodes) && Lawful(env)
    modifies disk
    ensures Progress(env, data, old(disk.nodes), disk.nodes, made, PairChanges(marker, snapshot))
    ensures marker <= RestoreMarker(env, data, old(disk.nodes), snapshot)
    ensures |made| > 1 ==> marker == RestoreMarker(env, data, old(disk.nodes), snapshot)
    ensures PathOf(env, data, PendingFile) in old(disk.nodes) <==> r == Err(RestoreInterrupted)
    ensures r == Err(RestoreInterrupted) ==> disk.nodes == old(disk.nodes)
    ensures r.Ok? ==> made == PairChanges(marker, snapshot)
    ensures trouble.Never? && Clear(env, data, old(disk.nodes)) && r != Err(RestoreInterrupted) ==> r.Ok?
    ensures trouble.InsideMarker? && r != Err(RestoreInterrupted) ==>
              r.Crash? && made == [Put(PendingFile, marker)]
              && marker == Cut(RestoreMarker(env, data, old(disk.nodes), snapshot), trouble.written)
    ensures r.Err? ==> r.error in {RestoreInterrupted, RestoreFiles}
  {
    hide ChangedBy, Home, Clear, FileAt, MarkerText;
    var calm := !trouble.AnyTime?;
    ghost var before := disk.nodes;
    NothingChanged(env, data, before);
    var text := RestoreMarker(env, data, disk.nodes, snapshot);
    if PathOf(env, data, PendingFile) in disk.nodes {
      return Err(RestoreInterrupted), text, [];
    }
    var s: Status;
    s, marker, made := WriteRestoreMarker(disk, env, data, text, trouble);
    if !s.Done? {
      return Ended(s, RestoreFiles), marker, made;
    }
    ghost var landed: seq<Change>;
    ghost var mid := disk.nodes;
    ClearAgain(env, data, before, mid, made);
    s, landed := ReplacePair(disk, env, data, snapshot, calm);
    StepMade(env, data, before, mid, disk.nodes, made, landed, PairAlone(snapshot));
    made := made + landed;
    if !s.Done? {
      return Ended(s, RestoreFiles), marker, made;
    }
    mid := disk.nodes;
    ClearAgain(env, data, before, mid, made);
    s, landed := RemoveStaleSidecar(disk, env, data, PendingFile, calm);
    StepMade(env, data, before, mid, disk.nodes, made, landed, [Delete(PendingFile)]);
    made := made + landed;
    r := if s.Done? then Ok(()) else Ended(s, RestoreFiles);
  }

  /** Writes the entry of one name, if the package has it. */
  method RestoreEntry(disk: Disk, env: Platform, data: Path, entries: seq<Entry>, name: string, place: Place,
                      calm: bool, restored: nat, ghost before: Nodes, ghost made: seq<Change>)
    returns (s: Status, count: nat, ghost now: seq<Change>)
    requires Home(data, disk.nodes) && Lawful(env) && ChangedBy(env, data, before, disk.nodes, made)
    modifies disk
    ensures Progress(env, data, before, disk.nodes, now, made + PutIf(place, Find(entries, name)))
    ensures s.Done? ==> now == made + PutIf(place, Find(entries, name))
    ensures s.Done? ==> count == restored + Count(Find(entries, name))
    ensures calm && Clear(env, data, before) ==> s.Done?
  {
    hide ChangedBy, Home, Clear, Find;
    ghost var mid := disk.nodes;
    var content := Find(entries, name);
    if content.None? {
      return Done, restored, made;
    }
    ClearAgain(env, data, before, mid, made);
    ghost var landed: seq<Change>;
    s, landed := WriteRestoredFile(disk, env, data, place, content.value, calm);
    StepMade(env, data, before, mid, disk.nodes, made, landed, [Put(place, content.value)]);
    count, now := restored + 1, made + landed;
  }

  lemma PrefixOfFixed(f: Files, made: seq<Change>, k: nat)
    requires k <= 5 && made <= FixedUpTo(f, k)
    ensures made <= FixedChanges(f)
    decreases 5 - k
  {
    if k < 5 {
      assert FixedUpTo(f, k) <= FixedUpTo(f, k + 1);
      PrefixOfFixed(f, made, k + 1);
    } else {
      assert FixedUpTo(f, 3) == FixedUpTo(f, 1) + PutIf(SystemKeyFile, f.systemKey) + PutIf(MarkerFile, f.marker);
      assert FixedUpTo(f, 5) == FixedUpTo(f, 3) + PutIf(CertificateFile, f.certificate)
                                + PutIf(PrivateKeyFile, f.privateKey);
    }
  }

  function FixedUpTo(f: Files, k: nat): seq<Change> {
    if k == 0 then [] else if k == 1 then PutIf(KeyFile, f.masterKey)
    else if k == 2 then FixedUpTo(f, 1) + PutIf(SystemKeyFile, f.systemKey)
    else if k == 3 then FixedUpTo(f, 2) + PutIf(MarkerFile, f.marker)
    else if k == 4 then FixedUpTo(f, 3) + PutIf(CertificateFile, f.certificate)
    else FixedUpTo(f, 4) + PutIf(PrivateKeyFile, f.privateKey)
  }

  method RestoreFixedFiles(disk: Disk, env: Platform, data: Path, entries: seq<Entry>, calm: bool)
    returns (s: Status, restored: nat, ghost made: seq<Change>)
    requires Home(data, disk.nodes) && Lawful(env)
    modifies disk
    ensures Progress(env, data, old(disk.nodes), disk.nodes, made, FixedChanges(Unpacked(env, entries)))
    ensures s.Done? ==> made == FixedChanges(Unpacked(env, entries))
    ensures s.Done? ==> restored + |ArtifactsOf(env, entries)| == RestoredCount(Unpacked(env, entries))
    ensures calm && Clear(env, data, old(disk.nodes)) ==> s.Done?
  {
    hide ChangedBy, Home, Clear, Find, ArtifactsOf, PutIf, Count;
    ghost var before, f := disk.nodes, Unpacked(env, entries);
    NothingChanged(env, data, before);
    s, restored, made := RestoreEntry(disk, env, data, entries, "master-key", KeyFile, calm, 0, before, []);
    assert [] + PutIf(KeyFile, f.masterKey) == FixedUpTo(f, 1);
    PrefixOfFixedIf(f, made, 1);
    if s.Done? {
      s, restored, made :=
        RestoreEntry(disk, env, data, entries, "system-master-key", SystemKeyFile, calm, restored, before, made);
      PrefixOfFixedIf(f, made, 2);
    }
    if s.Done? {
      s, restored, made := RestoreEntry(disk, env, data, entries, "instance", MarkerFile, calm, restored, before, made);
      PrefixOfFixedIf(f, made, 3);
    }
    if s.Done? {
      s, restored, made :=
        RestoreEntry(disk, env, data, entries, "tls-certificate", CertificateFile, calm, restored, before, made);
      PrefixOfFixedIf(f, made, 4);
    }
    if s.Done? {
      s, restored, made :=
        RestoreEntry(disk, env, data, entries, "tls-private-key", PrivateKeyFile, calm, restored, before, made);
    }
  }

  lemma PrefixOfFixedIf(f: Files, made: seq<Change>, k: nat)
    ensures k <= 5 && made <= FixedUpTo(f, k) ==> made <= FixedChanges(f)
  {
    if k <= 5 && made <= FixedUpTo(f, k) {
      PrefixOfFixed(f, made, k);
    }
  }

  lemma NoArtifactChanges(fixed: seq<Change>)
    ensures fixed + ArtifactChanges([]) == fixed
  {
  }

  lemma ArtifactChangesSnoc(artifacts: seq<(Uuid, Bytes)>, a: (Uuid, Bytes))
    ensures ArtifactChanges(artifacts + [a]) == ArtifactChanges(artifacts) + [Put(ArtifactBytes(a.0), a.1)]
  {
  }

  lemma ArtifactsPrefix(env: Platform, entries: seq<Entry>, i: nat)
    requires i <= |entries| && BadName(env, entries[..i]).None?
    ensures ArtifactChanges(ArtifactsOf(env, entries[..i])) <= ArtifactChanges(ArtifactsOf(env, entries))
  {
    assert entries == entries[..i] + entries[i..];
    ArtifactsOfBoth(env, entries[..i], entries[i..]);
  }

  /** Writes every artifact entry, up to the first whose name does not stand for an artifact. */
  method RestoreArtifactFiles(disk: Disk, env: Platform, data: Path, entries: seq<Entry>, calm: bool, count: nat,
                              ghost before: Nodes, ghost fixed: seq<Change>)
    returns (r: Outcome<nat>, ghost made: seq<Change>)
    requires Home(data, disk.nodes) && Lawful(env) && ChangedBy(env, data, before, disk.nodes, fixed)
    modifies disk
    ensures Progress(env, data, before, disk.nodes, made, fixed + ArtifactChanges(ArtifactsOf(env, entries)))
    ensures r.Ok? ==> made == fixed + ArtifactChanges(ArtifactsOf(env, entries))
    ensures r.Ok? ==> BadName(env, entries).None? && r.value == count + |ArtifactsOf(env, entries)|
    ensures r.Err? ==> r.error.WriteRestored? || r.error.InvalidArtifactEntryName?
    ensures r.Err? && r.error.InvalidArtifactEntryName? ==> BadName(env, entries) == Some(r.error.name)
    ensures r.Err? && r.error.InvalidArtifactEntryName? ==>
              made == fixed + ArtifactChanges(ArtifactsOf(env, entries))
    ensures calm && Clear(env, data, before) ==> !r.Crash? && r != Err(WriteRestored)
  {
    hide ChangedBy, Home, Clear, ArtifactsOf, BadName, ArtifactChanges;
    NothingRead(env);
    NoArtifactChanges(fixed);
    var restored := count;
    made := fixed;
    for i := 0 to |entries|
      invariant BadName(env, entries[..i]).None? && restored == count + |ArtifactsOf(env, entries[..i])|
      invariant made == fixed + ArtifactChanges(ArtifactsOf(env, entries[..i]))
      invariant Home(data, disk.nodes) && ChangedBy(env, data, before, disk.nodes, made)
    {
      var entry := entries[i];
      OneMoreEntry(env, entries, i);
      ArtifactsPrefix(env, entries, i);
      if entry.kind == ArtifactFile {
        var id := ArtifactId(env, entry.name);
        if id.None? {
          return Err(InvalidArtifactEntryName(entry.name)), made;
        }
        ArtifactsPrefix(env, entries, i + 1);
        ArtifactChangesSnoc(ArtifactsOf(env, entries[..i]), (id.value, entry.content));
        ghost var mid := disk.nodes;
        ClearAgain(env, data, before, mid, made);
        var s;
        ghost var landed: seq<Change>;
        s, landed := WriteRestoredFile(disk, env, data, ArtifactBytes(id.value), entry.content, calm);
        StepMade(env, data, before, mid, disk.nodes, made, landed, [Put(ArtifactBytes(id.value), entry.content)]);
        made := made + landed;
        if !s.Done? {
          r := if s.Failed? then Err(WriteRestored) else Crash;
          return;
        }
        restored := restored + 1;
      }
    }
    assert entries[..|entries|] == entries;
    return Ok(restored), made;
  }

  /** Writes the files of a package that are not the database, and counts them. */
  method RestoreDataDirectoryFiles(disk: Disk, env: Platform, data: Path, entries: seq<Entry>, calm: bool)
    returns (r: Outcome<nat>, ghost made: seq<Change>)
    requires Home(data, disk.nodes) && Lawful(env)
    modifies disk
    ensures Progress(env, data, old(disk.nodes), disk.nodes, made, FileChanges(Unpacked(env, entries)))
    ensures r.Ok? ==> made == FileChanges(Unpacked(env, entries)) && r.value == RestoredCount(Unpacked(env, entries))
    ensures r.Ok? ==> BadName(env, entries).None?
    ensures r.Err? ==> r.error.WriteRestored? || r.error.InvalidArtifactEntryName?
    ensures r.Err? && r.error.InvalidArtifactEntryName? ==> BadName(env, entries) == Some(r.error.name)
    ensures r.Err? && r.error.InvalidArtifactEntryName? ==> made == FileChanges(Unpacked(env, entries))
    ensures calm && Clear(env, data, old(disk.nodes)) ==> !r.Crash? && r != Err(WriteRestored)
  {
    hide ChangedBy, Home, Clear, ArtifactsOf, BadName, FixedChanges, ArtifactChanges;
    ghost var before := disk.nodes;
    var s, restored;
    s, restored, made := RestoreFixedFiles(disk, env, data, entries, calm);
    if !s.Done? {
      r := if s.Failed? then Err(WriteRestored) else Crash;
      return;
    }
    r, made := RestoreArtifactFiles(disk, env, data, entries, calm, restored, before, made);
  }

  // ----- The overwriting stage -----

  /** The bytes at a place once everything is restored. */
  function RestoredAt(snapshot: Snapshot, f: Files, place: Place, before: Option<Bytes>): Option<Bytes> {
    if Packaged(snapshot, f, place).Some? then Packaged(snapshot, f, place)
    else if place in {WalFile, ShmFile, PendingFile} then None else before
  }

  /** The data directory holds exactly what the package holds, and otherwise what it held before. */
  ghost predicate Restored(env: Platform, data: Path, before: Nodes, now: Nodes, snapshot: Snapshot, f: Files) {
    && (forall place :: FileAt(now, PathOf(env, data, place))
                     == RestoredAt(snapshot, f, place, FileAt(before, PathOf(env, data, place))))
    && (forall p | Within(p, data) && !IsPlace(env, data, p) :: FileAt(now, p) == FileAt(before, p))
    && (forall p | Within(p, data) && IsDir(before, p) :: IsDir(now, p))
  }

  lemma AllChangesRestore(env: Platform, data: Path, before: Nodes, now: Nodes, marker: Bytes, snapshot: Snapshot,
                          f: Files)
    requires ChangedBy(env, data, before, now, AllChanges(marker, snapshot, f))
    ensures Restored(env, data, before, now, snapshot, f)
  {
    forall place
      ensures FileAt(now, PathOf(env, data, place))
           == RestoredAt(snapshot, f, place, FileAt(before, PathOf(env, data, place)))
    {
      RestoredBytes(marker, snapshot, f, place, FileAt(before, PathOf(env, data, place)));
    }
  }

  lemma ReadBack(env: Platform, data: Path, before: Nodes, now: Nodes, snapshot: Snapshot, f: Files)
    requires Restored(env, data, before, now, snapshot, f)
    ensures LivePair(env, data, now) == RestoredPair(snapshot)
  {
  }

  /** The outcome of the overwriting stage when nothing fails: a restore counts the files it wrote, and is
      refused for a bad artifact name or by the consistency check. */
  function PhaseOutcome(env: Platform, nodes: Nodes, data: Path, entries: seq<Entry>, snapshot: Snapshot)
    : Outcome<nat>
  {
    match BadName(env, entries)
    case Some(name) => Err(InvalidArtifactEntryName(name))
    case None =>
      match Verdict(env, nodes, data, entries, snapshot)
      case Err(e) => Err(e)
      case Crash => Crash
      case Ok(_) => Ok(RestoredCount(Unpacked(env, entries)))
  }

  /** Overwrites the data directory and verifies what is then there. */
  method RestoreDataPhase(disk: Disk, env: Platform, data: Path, entries: seq<Entry>, snapshot: Snapshot,
                          trouble: Trouble)
    returns (r: Outcome<nat>, ghost marker: Bytes, ghost made: seq<Change>)
    requires Home(data, disk.nodes) && Lawful(env)
    modifies disk
    ensures Progress(env, data, old(disk.nodes), disk.nodes, made,
                     AllChanges(marker, snapshot, Unpacked(env, entries)))
    ensures marker <= RestoreMarker(env, data, old(disk.nodes), snapshot)
    ensures |made| > 1 ==> marker == RestoreMarker(env, data, old(disk.nodes), snapshot)
    ensures r.Ok? ==> made == AllChanges(marker, snapshot, Unpacked(env, entries))
    ensures r.Ok? ==> r == PhaseOutcome(env, disk.nodes, data, entries, snapshot)
    ensures trouble.Never? && Clear(env, data, old(disk.nodes)) ==>
              r == if PathOf(env, data, PendingFile) in old(disk.nodes) then Err(RestoreInterrupted)
                   else PhaseOutcome(env, disk.nodes, data, entries, snapshot)
    ensures trouble.Never? && Clear(env, data, old(disk.nodes))
            && PathOf(env, data, PendingFile) !in old(disk.nodes) ==>
              made == AllChanges(marker, snapshot, Unpacked(env, entries))
    ensures trouble.InsideMarker? && PathOf(env, data, PendingFile) !in old(disk.nodes) ==>
              r.Crash? && made == [Put(PendingFile, marker)]
              && marker == Cut(RestoreMarker(env, data, old(disk.nodes), snapshot), trouble.written)
  {
    hide ChangedBy, Home, Clear, PairChanges, FileChanges, Unpacked, Verdict, RestoredCount, BadName, RestoreMarker;
    hide Restored;
    var calm := !trouble.AnyTime?;
    ghost var before, f := disk.nodes, Unpacked(env, entries);
    var pair;
    pair, marker, made := RestoreDatabaseFiles(disk, env, data, snapshot, trouble);
    if !pair.Ok? {
      PairFirst(marker, snapshot, f, made);
      r := if pair.Err? then Err(pair.error) else Crash;
      return;
    }
    ghost var mid := disk.nodes;
    ClearAgain(env, data, before, mid, made);
    ghost var written: seq<Change>;
    r, written := RestoreDataDirectoryFiles(disk, env, data, entries, calm);
    StepMade(env, data, before, mid, disk.nodes, made, written, FileChanges(f));
    made := made + written;
    PairIsMarked(marker, snapshot);
    if !r.Ok? {
      return;
    }
    AllChangesRestore(env, data, before, disk.nodes, marker, snapshot, f);
    var s := Interruption(calm);
    if !s.Done? {
      r := if s.Failed? then Err(ReadRestored) else Crash;
      return;
    }
    // The database and the log are read back, compared with the snapshot and checked again. Reading gives
    // what was written, so the comparison holds, and the check can fail only for want of a staging copy.
    ReadBack(env, data, before, disk.nodes, snapshot, f);
    assert LivePair(env, data, disk.nodes) == RestoredPair(snapshot);
    s := Interruption(calm);
    if !s.Done? {
      r := if s.Failed? then Err(RestoreCheck) else Crash;
      return;
    }
    s := Interruption(calm);
    if !s.Done? {
      r := if s.Failed? then Err(ArtifactConsistencyStage) else Crash;
      return;
    }
    var verified := VerifyRestoredArtifactConsistency(disk.nodes, env, data, entries, snapshot);
    if verified.Err? {
      r := Err(verified.error);
    }
    VerdictIsNoCrash(env, disk.nodes, data, entries, snapshot);
  }

  lemma PairFirst(marker: Bytes, s: Snapshot, f: Files, made: seq<Change>)
    requires made <= PairChanges(marker, s)
    ensures made <= AllChanges(marker, s, f)
  {
  }

  lemma PairIsMarked(marker: Bytes, s: Snapshot)
    ensures |PairChanges(marker, s)| > 1
  {
  }

  lemma VerdictIsNoCrash(env: Platform, nodes: Nodes, data: Path, entries: seq<Entry>, snapshot: Snapshot)
    ensures !Verdict(env, nodes, data, entries, snapshot).Crash?
  {
  }

  // ----- The copy taken before the first overwrite -----

  const PRE_RESTORE_PREFIX := "rutilus-restore-pre-"

  /** The temporary directory beside the data directory. */
  function SnapshotPath(data: Path, suffix: string): Path {
    (if data == [] then [] else Parent(data)) + [PRE_RESTORE_PREFIX + suffix]
  }

  /** The data directory is as it was, or a complete copy of it is in the snapshot directory. */
  ghost predicate Preserved(before: Nodes, now: Nodes, data: Path, copy: Path) {
    SameWithin(before, now, data) || IsCopy(before, now, data, copy, LockPath(data), BackupsPath(data))
  }

  /** Each path of the data directory is in the copy, the same, unless its first name is that of the runtime
      lock or of the backups. */
  ghost predicate HoldsAllButLockAndBackups(before: Nodes, now: Nodes, data: Path, copy: Path) {
    forall p | Within(p, data) && (|p| > |data| ==> p[|data|] !in {".rutilus.lock", "backups"}) ::
      var q := copy + p[|data|..];
      (q in now <==> p in before) && (p in before ==> now[q] == before[p])
  }

  lemma CopyHoldsAll(before: Nodes, now: Nodes, data: Path, copy: Path)
    requires IsCopy(before, now, data, copy, LockPath(data), BackupsPath(data))
    ensures HoldsAllButLockAndBackups(before, now, data, copy)
  {
    forall p | Within(p, data) && (|p| > |data| ==> p[|data|] !in {".rutilus.lock", "backups"})
      ensures var q := copy + p[|data|..];
              (q in now <==> p in before) && (p in before ==> now[q] == before[p])
    {
      OnlyLockAndBackupsAreLeftOut(data, p);
      CopyHoldsEveryFile(before, now, data, copy, LockPath(data), BackupsPath(data), p);
    }
  }

  /** A file of the data directory is where it was, or at the same relative path in the copy. */
  ghost predicate FileSurvives(before: Nodes, now: Nodes, data: Path, copy: Path, p: Path)
    requires Within(p, data)
  {
    FileAt(before, p).Some? ==>
      FileAt(now, p) == FileAt(before, p) || FileAt(now, copy + p[|data|..]) == FileAt(before, p)
  }

  ghost predicate EveryFileSurvives(before: Nodes, now: Nodes, data: Path, copy: Path) {
    forall p | Within(p, data) :: FileSurvives(before, now, data, copy, p)
  }

  /** What the copy leaves out is not touched. */
  ghost predicate LeftOutIsUntouched(before: Nodes, now: Nodes, data: Path) {
    forall p | Within(p, data) && Excluded(p, LockPath(data), BackupsPath(data)) :: FileAt(now, p) == FileAt(before, p)
  }

  /** File by file: what the copy holds survives there, what it leaves out is not touched. */
  lemma NoFileIsLost(before: Nodes, now: Nodes, data: Path, copy: Path)
    requires Preserved(before, now, data, copy) && LeftOutIsUntouched(before, now, data)
    ensures EveryFileSurvives(before, now, data, copy)
  {
    forall p | Within(p, data) ensures FileSurvives(before, now, data, copy, p) {
      if SameWithin(before, now, data) {
        assert SameAt(before, now, p);
      } else if !Excluded(p, LockPath(data), BackupsPath(data)) {
        CopyHoldsEveryFile(before, now, data, copy, LockPath(data), BackupsPath(data), p);
      }
    }
  }

  /** The changes of a restore do not reach what the copy leaves out: no place is there. */
  lemma LeftOutAfterOverwriting(env: Platform, data: Path, before: Nodes, mid: Nodes, now: Nodes, after: Nodes,
                                made: seq<Change>)
    requires SameWithin(before, mid, data) && ChangedBy(env, data, mid, now, made) && SameWithin(now, after, data)
    ensures LeftOutIsUntouched(before, after, data)
  {
    hide PathOf, After;
    forall p | Within(p, data) && Excluded(p, LockPath(data), BackupsPath(data))
      ensures FileAt(after, p) == FileAt(before, p)
    {
      assert SameAt(before, mid, p) && SameAt(now, after, p);
      if IsPlace(env, data, p) {
        var place :| p == PathOf(env, data, place);
        PlacesAreCopied(env, data, place);
      }
    }
  }

  lemma LeftOutStays(before: Nodes, now: Nodes, data: Path)
    requires SameWithin(before, now, data)
    ensures LeftOutIsUntouched(before, now, data)
  {
    forall p | Within(p, data) ensures FileAt(now, p) == FileAt(before, p) {
      assert SameAt(before, now, p);
    }
  }

  lemma {:induction false} DeepestExists(paths: set<Path>)
    requires paths != {}
    ensures exists p :: p in paths && forall q | q in paths :: |q| <= |p|
    decreases paths
  {
    var p :| p in paths;
    var rest := paths - {p};
    if rest == {} {
      assert forall q | q in paths :: q == p || q in rest;
    } else {
      DeepestExists(rest);
      var d :| d in rest && forall q | q in rest :: |q| <= |d|;
      var deepest := if |d| >= |p| then d else p;
      assert deepest in paths && forall q | q in paths :: q == p || q in rest;
    }
  }

  lemma RemoveLeaf(nodes: Nodes, leaf: Path)
    requires WellFormed(nodes) && forall q | q in nodes && q != [] :: Parent(q) != leaf
    ensures WellFormed(nodes - {leaf})
  {
  }

  /** The deepest path below a directory has nothing below it. */
  lemma DeepestIsLeaf(nodes: Nodes, dir: Path, leaf: Path)
    requires Within(leaf, dir) && forall q | q in nodes && Within(q, dir) :: |q| <= |leaf|
    ensures forall q | q in nodes && q != [] :: Parent(q) != leaf
  {
    forall q | q in nodes && q != [] ensures Parent(q) != leaf {
      if Parent(q) == leaf {
        assert Within(q, dir);
      }
    }
  }

  /** Removes the snapshot directory, from the bottom up; that some of it cannot be removed is not reported. */
  method DiscardSnapshot(disk: Disk, copy: Path, calm: bool)
    requires WellFormed(disk.nodes)
    modifies disk
    ensures WellFormed(disk.nodes) && SameOutside(old(disk.nodes), disk.nodes, copy)
    ensures calm ==> forall p | p in disk.nodes :: !Within(p, copy)
  {
    hide WellFormed;
    var inside := set p | p in disk.nodes && Within(p, copy);
    while inside != {}
      invariant WellFormed(disk.nodes) && SameOutside(old(disk.nodes), disk.nodes, copy)
      invariant inside == set p | p in disk.nodes && Within(p, copy)
      decreases inside
    {
      var s := Interruption(calm);
      if !s.Done? {
        return;
      }
      DeepestExists(inside);
      var leaf :| leaf in inside && forall q | q in inside :: |q| <= |leaf|;
      DeepestIsLeaf(disk.nodes, copy, leaf);
      RemoveLeaf(disk.nodes, leaf);
      ghost var mid := disk.nodes;
      disk.nodes := disk.nodes - {leaf};
      OutsideOnce(old(disk.nodes), mid, copy, leaf);
      inside := inside - {leaf};
    }
    assert forall p | p in disk.nodes && Within(p, copy) :: p in inside;
  }

  lemma OutsideOnce(before: Nodes, mid: Nodes, dir: Path, leaf: Path)
    requires SameOutside(before, mid, dir) && Within(leaf, dir)
    ensures SameOutside(before, mid - {leaf}, dir)
  {
    var after := mid - {leaf};
    forall p | !Within(p, dir) ensures SameAt(before, after, p) {
      assert SameAt(before, mid, p);
    }
  }

  /** Copies the data directory into a new directory beside it. */
  method CreatePreRestoreSnapshot(disk: Disk, data: Path, suffix: string, calm: bool)
    returns (r: Outcome<Path>)
    requires Home(data, disk.nodes)
    modifies disk
    ensures var copy := SnapshotPath(data, suffix);
            && WellFormed(disk.nodes) && SameOutside(old(disk.nodes), disk.nodes, copy)
            && (r.Ok? ==> r.value == copy && Apart(data, copy))
            && (r.Ok? ==> IsCopy(old(disk.nodes), disk.nodes, data, copy, LockPath(data), BackupsPath(data)))
            && (r.Ok? ==> HoldsAllButLockAndBackups(old(disk.nodes), disk.nodes, data, copy))
            && (r.Err? ==> r.error == PreRestoreSnapshot)
            && (data == [] || copy in old(disk.nodes) ==> disk.nodes == old(disk.nodes) && !r.Ok?)
            && (calm && data != [] && copy !in old(disk.nodes) ==> r.Ok?)
  {
    hide IsCopy, Apart, Excluded, WellFormed, Home, HoldsAllButLockAndBackups;
    HomeIsWellFormed(data, disk.nodes);
    if data == [] {
      return Err(PreRestoreSnapshot);
    }
    var copy := SnapshotPath(data, suffix);
    if copy in disk.nodes {
      return Err(PreRestoreSnapshot);
    }
    ghost var before := disk.nodes;
    SnapshotIsApart(before, data, suffix);
    var s := Interruption(calm);
    if !s.Done? {
      return if s.Failed? then Err(PreRestoreSnapshot) else Crash;
    }
    disk.nodes := disk.nodes[copy := Dir];
    s := disk.CopyDataDirectory(data, copy, LockPath(data), BackupsPath(data), calm);
    SameAfterAdding(before, disk.nodes, copy);
    if s.Failed? {
      ghost var partial := disk.nodes;
      DiscardSnapshot(disk, copy, calm);
      OutsideTwice(before, partial, disk.nodes, copy);
      return Err(PreRestoreSnapshot);
    }
    if s.Crashed? {
      return Crash;
    }
    CopyOfSameTree(before, before[copy := Dir], disk.nodes, data, copy, LockPath(data), BackupsPath(data));
    CopyHoldsAll(before, disk.nodes, data, copy);
    return Ok(copy);
  }

  lemma OutsideTwice(a: Nodes, b: Nodes, c: Nodes, dir: Path)
    requires SameOutside(a, b, dir) && SameOutside(b, c, dir)
    ensures SameOutside(a, c, dir)
  {
    forall p | !Within(p, dir) ensures SameAt(a, c, p) {
      assert SameAt(a, b, p) && SameAt(b, c, p);
    }
  }

  lemma SnapshotIsApart(nodes: Nodes, data: Path, suffix: string)
    requires Home(data, nodes) && data != [] && SnapshotPath(data, suffix) !in nodes
    ensures var copy := SnapshotPath(data, suffix);
            && Apart(data, copy) && WellFormed(nodes[copy := Dir]) && SameWithin(nodes, nodes[copy := Dir], data)
            && !Excluded(data, LockPath(data), BackupsPath(data))
            && (forall p | p in nodes[copy := Dir] && Within(p, copy) :: p == copy)
  {
    var copy := SnapshotPath(data, suffix);
    AddEntry(nodes, Parent(data), PRE_RESTORE_PREFIX + suffix, Dir);
    forall p | Within(p, copy) ensures p !in nodes {
      NothingBelowAbsent(nodes, copy, p);
    }
  }

  // ----- What is checked before the data directory is touched -----

  /** The instance is stopped and was initialized. */
  function StoppedInstance(env: Platform, nodes: Nodes, data: Path, running: bool): Outcome<()> {
    if running then Err(RuntimeLock) else
      match FileAt(nodes, PathOf(env, data, MarkerFile))
      case None => Err(NotInitialized)
      case Some(bytes) => if bytes == env.completeMarker then Ok(()) else Err(Marker)
  }

  /** The key of this instance, out of the envelope the caller unlocks. */
  function InstanceKey(env: Platform, nodes: Nodes, data: Path, unlock: Envelope): Outcome<Key> {
    match FileAt(nodes, PathOf(env, data, if unlock == Passphrase then KeyFile else SystemKeyFile))
    case None => Err(MasterKeyFile)
    case Some(bytes) =>
      if !env.loads(unlock, bytes) then Err(MasterKeyFile) else
        match env.recover(unlock, bytes)
        case None => Err(MasterKeyProtection)
        case Some(key) => Ok(key)
  }

  datatype Admitted = Admitted(entries: seq<Entry>, snapshot: Snapshot, pending: nat)

  /** What a package opened with the key of this instance holds, if it can be restored by this product. */
  function OpenedPackage(env: Platform, key: Key, package: Bytes): Outcome<Admitted> {
    match env.unseal(key, package)
    case NotAuthentic => Err(RestorePackageAuthentication)
    case Malformed => Err(InvalidPackage)
    case Opened(opening) =>
      if opening.version != env.version then Err(ProductVersionMismatch) else
        match SnapshotOf(opening.entries)
        case None => Err(MissingDatabaseEntry)
        case Some(snapshot) =>
          match env.compatibility(snapshot)
          case Unreadable => Err(RestoreCheck)
          case Newer => Err(NewerSchema)
          case Compatible(pending) => Ok(Admitted(opening.entries, snapshot, pending))
  }

  /** Every validation of a restore, in order; nothing is written before all of them pass. */
  function Admission(env: Platform, nodes: Nodes, data: Path, running: bool, unlock: Envelope, package: Option<Bytes>)
    : Outcome<Admitted>
  {
    match StoppedInstance(env, nodes, data, running)
    case Err(e) => Err(e)
    case Crash => Crash
    case Ok(_) =>
      match InstanceKey(env, nodes, data, unlock)
      case Err(e) => Err(if e == MasterKeyProtection then RestoreUnlockAuthentication else e)
      case Crash => Crash
      case Ok(key) => if package.None? then Err(ReadPackage) else OpenedPackage(env, key, package.value)
  }

  /** The key of this instance, if it can be had. */
  function UnlockedKey(env: Platform, nodes: Nodes, data: Path, unlock: Envelope): Option<Key> {
    var envelope := FileAt(nodes, PathOf(env, data, if unlock.Passphrase? then KeyFile else SystemKeyFile));
    if envelope.Some? && env.loads(unlock, envelope.value) then env.recover(unlock, envelope.value) else None
  }

  /** Why a stopped, initialized instance with a key may be missing: each cause by itself. */
  predicate InstanceRefuses(env: Platform, nodes: Nodes, data: Path, running: bool, unlock: Envelope, e: BackupError) {
    var marker := FileAt(nodes, PathOf(env, data, MarkerFile));
    var envelope := FileAt(nodes, PathOf(env, data, if unlock.Passphrase? then KeyFile else SystemKeyFile));
    match e
    case RuntimeLock => running
    case NotInitialized => marker.None?
    case Marker => marker.Some? && marker.value != env.completeMarker
    case MasterKeyFile => envelope.None? || !env.loads(unlock, envelope.value)
    case MasterKeyProtection =>
      envelope.Some? && env.loads(unlock, envelope.value) && env.recover(unlock, envelope.value).None?
    case _ => false
  }

  /** Why a package is refused by the key it is opened with and by this product. */
  predicate PackageRefuses(env: Platform, key: Key, package: Bytes, e: BackupError) {
    var opening := env.unseal(key, package);
    var snapshot := if opening.Opened? then SnapshotOf(opening.package.entries) else None;
    match e
    case RestorePackageAuthentication => opening.NotAuthentic?
    case InvalidPackage => opening.Malformed?
    case ProductVersionMismatch => opening.Opened? && opening.package.version != env.version
    case MissingDatabaseEntry => opening.Opened? && snapshot.None?
    case RestoreCheck => snapshot.Some? && env.compatibility(snapshot.value).Unreadable?
    case NewerSchema => snapshot.Some? && env.compatibility(snapshot.value).Newer?
    case _ => false
  }

  /** Why a restore is refused: each cause by itself. */
  predicate Refuses(env: Platform, nodes: Nodes, data: Path, running: bool, unlock: Envelope, package: Option<Bytes>,
                    e: BackupError)
  {
    var key := UnlockedKey(env, nodes, data, unlock);
    match e
    case RestoreUnlockAuthentication => InstanceRefuses(env, nodes, data, running, unlock, MasterKeyProtection)
    case MasterKeyProtection => false
    case ReadPackage => package.None?
    case _ =>
      || InstanceRefuses(env, nodes, data, running, unlock, e)
      || (key.Some? && package.Some? && PackageRefuses(env, key.value, package.value, e))
  }

  /** The order in which a restore finds the causes. */
  function RestoreOrder(e: BackupError): nat {
    match e
    case RuntimeLock => 0
    case NotInitialized => 1
    case Marker => 2
    case MasterKeyFile => 3
    case RestoreUnlockAuthentication => 4
    case ReadPackage => 5
    case RestorePackageAuthentication => 6
    case InvalidPackage => 7
    case ProductVersionMismatch => 8
    case MissingDatabaseEntry => 9
    case RestoreCheck => 10
    case NewerSchema => 11
    case _ => 12
  }

  lemma PackageCauseInOrder(env: Platform, key: Key, package: Bytes, e: BackupError)
    ensures var opening := OpenedPackage(env, key, package);
            && !opening.Crash?
            && (opening.Err? ==> RestoreOrder(opening.error) in {6, 7, 8, 9, 10, 11})
            && (opening.Ok? || (opening.Err? && RestoreOrder(e) < RestoreOrder(opening.error)) ==>
                  !PackageRefuses(env, key, package, e))
            && (opening == Err(e) ==> PackageRefuses(env, key, package, e))
  {
    hide SnapshotOf;
  }

  lemma InstanceCauseInOrder(env: Platform, nodes: Nodes, data: Path, running: bool, unlock: Envelope, e: BackupError)
    ensures var stopped, key := StoppedInstance(env, nodes, data, running), InstanceKey(env, nodes, data, unlock);
            && !stopped.Crash? && !key.Crash?
            && (stopped.Err? ==> RestoreOrder(stopped.error) in {0, 1, 2})
            && (stopped.Err? && RestoreOrder(e) < RestoreOrder(stopped.error) ==>
                  !InstanceRefuses(env, nodes, data, running, unlock, e))
            && (stopped == Err(e) ==> InstanceRefuses(env, nodes, data, running, unlock, e))
            && (stopped.Ok? ==> key == Err(e) ==> InstanceRefuses(env, nodes, data, running, unlock, e))
            && (stopped.Ok? && InstanceRefuses(env, nodes, data, running, unlock, e) ==> key == Err(e))
            && (key.Err? ==> key.error in {MasterKeyFile, MasterKeyProtection})
            && (key.Ok? <==> UnlockedKey(env, nodes, data, unlock).Some?)
            && (key.Ok? ==> UnlockedKey(env, nodes, data, unlock) == Some(key.value))
  {
    hide PathOf, FileAt;
  }

  lemma InstanceCausesOnly(env: Platform, nodes: Nodes, data: Path, running: bool, unlock: Envelope, e: BackupError)
    ensures InstanceRefuses(env, nodes, data, running, unlock, e) ==>
              e in {RuntimeLock, NotInitialized, Marker, MasterKeyFile, MasterKeyProtection}
  {
  }

  lemma PackageCausesOnly(env: Platform, key: Key, package: Bytes, e: BackupError)
    ensures PackageRefuses(env, key, package, e) ==> RestoreOrder(e) in {6, 7, 8, 9, 10, 11}
  {
  }

  lemma CauseInOrder(env: Platform, nodes: Nodes, data: Path, running: bool, unlock: Envelope, package: Option<Bytes>,
                     e: BackupError)
    ensures var admission := Admission(env, nodes, data, running, unlock, package);
            && !admission.Crash?
            && (admission.Ok? || (admission.Err? && RestoreOrder(e) < RestoreOrder(admission.error)) ==>
                  !Refuses(env, nodes, data, running, unlock, package, e))
            && (admission == Err(e) ==> Refuses(env, nodes, data, running, unlock, package, e))
  {
    hide StoppedInstance, InstanceKey, OpenedPackage, InstanceRefuses, PackageRefuses, UnlockedKey;
    InstanceCauseInOrder(env, nodes, data, running, unlock, e);
    InstanceCauseInOrder(env, nodes, data, running, unlock, MasterKeyProtection);
    InstanceCausesOnly(env, nodes, data, running, unlock, e);
    var key := UnlockedKey(env, nodes, data, unlock);
    if key.Some? && package.Some? {
      PackageCauseInOrder(env, key.value, package.value, e);
      PackageCausesOnly(env, key.value, package.value, e);
    }
  }

  /** A restore is refused for the first of its causes, and admitted exactly when there is none: the instance
      is stopped and complete, its key opens the package, and the package is of this product and of a schema
      it knows. */
  lemma RefusedForTheFirstCause(env: Platform, nodes: Nodes, data: Path, running: bool, unlock: Envelope,
                                package: Option<Bytes>)
    ensures var admission := Admission(env, nodes, data, running, unlock, package);
            && !admission.Crash?
            && (admission.Ok? <==> forall e :: !Refuses(env, nodes, data, running, unlock, package, e))
            && (admission.Err? ==>
                  && Refuses(env, nodes, data, running, unlock, package, admission.error)
                  && forall e | RestoreOrder(e) < RestoreOrder(admission.error) ::
                       !Refuses(env, nodes, data, running, unlock, package, e))
  {
    hide Admission, Refuses, RestoreOrder;
    var admission := Admission(env, nodes, data, running, unlock, package);
    forall e
      ensures admission.Ok? || (admission.Err? && RestoreOrder(e) < RestoreOrder(admission.error)) ==>
                !Refuses(env, nodes, data, running, unlock, package, e)
    {
      CauseInOrder(env, nodes, data, running, unlock, package, e);
    }
    CauseInOrder(env, nodes, data, running, unlock, package, if admission.Err? then admission.error else RuntimeLock);
  }

  /** What is admitted is the content of the package under the key of this instance. */
  lemma AdmittedIsOpened(env: Platform, nodes: Nodes, data: Path, running: bool, unlock: Envelope,
                         package: Option<Bytes>, a: Admitted)
    requires Admission(env, nodes, data, running, unlock, package) == Ok(a)
    ensures !running && FileAt(nodes, PathOf(env, data, MarkerFile)) == Some(env.completeMarker)
    ensures UnlockedKey(env, nodes, data, unlock).Some? && package.Some?
    ensures var opening := env.unseal(UnlockedKey(env, nodes, data, unlock).value, package.value);
            && opening.Opened? && opening.package.version == env.version && opening.package.entries == a.entries
            && SnapshotOf(a.entries) == Some(a.snapshot) && env.compatibility(a.snapshot) == Compatible(a.pending)
  {
    hide SnapshotOf, PathOf, FileAt;
  }

  lemma StoppedMeansHome(env: Platform, nodes: Nodes, data: Path, running: bool)
    requires WellFormed(nodes)
    ensures !StoppedInstance(env, nodes, data, running).Crash?
    ensures StoppedInstance(env, nodes, data, running).Ok? ==> Home(data, nodes)
  {
    hide WellFormed;
    var marker := PathOf(env, data, MarkerFile);
    assert marker[..|marker| - 1] == data;
    if marker in nodes {
      ParentIsDirectory(nodes, marker);
    }
  }

  lemma ParentIsDirectory(nodes: Nodes, p: Path)
    requires WellFormed(nodes) && p in nodes && p != []
    ensures IsDir(nodes, p[..|p| - 1])
  {
  }

  lemma AdmissionNeedsAHome(env: Platform, nodes: Nodes, data: Path, running: bool, unlock: Envelope,
                            package: Option<Bytes>)
    requires WellFormed(nodes)
    ensures var admission := Admission(env, nodes, data, running, unlock, package);
            && !admission.Crash? && (admission.Ok? ==> Home(data, nodes))
            && (admission.Err? ==> !admission.error.RestoreFailedPreservingSnapshot?)
  {
    hide WellFormed, Home, SnapshotOf;
    StoppedMeansHome(env, nodes, data, running);
  }

  // ----- The whole restore -----

  /** Everything restored, and accepted by the consistency check. */
  ghost predicate Complete(env: Platform, data: Path, before: Nodes, now: Nodes, a: Admitted) {
    && Restored(env, data, before, now, a.snapshot, Unpacked(env, a.entries))
    && BadName(env, a.entries).None? && Verdict(env, now, data, a.entries, a.snapshot) == Ok(())
  }

  datatype RestoreOutcome = RestoreOutcome(restoredEntries: nat, pendingMigrations: nat)

  /** The result of a restore in which nothing fails, by what its overwriting stage concludes. */
  function RestoreResult(phase: Outcome<nat>, copy: Path, pending: nat): Outcome<RestoreOutcome> {
    match phase
    case Ok(restored) => Ok(RestoreOutcome(restored, pending))
    case Err(e) => Err(RestoreFailedPreservingSnapshot(copy, e))
    case Crash => Crash
  }

  /** The data directory is as it was, or a complete copy of it exists, and each of its files is in one of the
      two places; or everything is restored and verified. */
  ghost predicate NeverTheOnlyCopy(env: Platform, data: Path, suffix: string, before: Nodes, now: Nodes,
                                   admission: Outcome<Admitted>)
  {
    var copy := SnapshotPath(data, suffix);
    || (Preserved(before, now, data, copy) && EveryFileSurvives(before, now, data, copy))
    || (admission.Ok? && Complete(env, data, before, now, admission.value))
  }

  /** An error that names the snapshot directory comes with a complete copy there; any other error comes
      with an untouched data directory. */
  ghost predicate ErrorTellsWhatIsLeft(data: Path, suffix: string, before: Nodes, now: Nodes, e: BackupError) {
    var copy := SnapshotPath(data, suffix);
    match e
    case RestoreFailedPreservingSnapshot(snapshot, _) =>
      snapshot == copy && IsCopy(before, now, data, copy, LockPath(data), BackupsPath(data))
    case _ => SameWithin(before, now, data)
  }

  ghost predicate SuccessIsComplete(env: Platform, data: Path, before: Nodes, now: Nodes,
                                    admission: Outcome<Admitted>, outcome: RestoreOutcome)
  {
    && admission.Ok? && Complete(env, data, before, now, admission.value)
    && outcome.restoredEntries == RestoredCount(Unpacked(env, admission.value.entries))
    && outcome.pendingMigrations == admission.value.pending
  }

  /** Nothing but the package and the restored files can make the restore fail: the copy can be taken and
      every file written. */
  ghost predicate Admissible(env: Platform, data: Path, suffix: string, before: Nodes, admission: Outcome<Admitted>) {
    !admission.Ok? || (Clear(env, data, before) && data != [] && SnapshotPath(data, suffix) !in before)
  }

  /** The result of a restore in which nothing goes wrong on the disk. */
  function CalmResult(env: Platform, data: Path, suffix: string, before: Nodes, now: Nodes,
                      admission: Outcome<Admitted>): Outcome<RestoreOutcome>
  {
    match admission
    case Err(e) => Err(e)
    case Crash => Crash
    case Ok(a) =>
      RestoreResult(if PathOf(env, data, PendingFile) in before then Err(RestoreInterrupted)
                    else PhaseOutcome(env, now, data, a.entries, a.snapshot),
                    SnapshotPath(data, suffix), a.pending)
  }

  ghost predicate SameElsewhere(before: Nodes, now: Nodes, data: Path, copy: Path) {
    forall p | !Within(p, data) && !Within(p, copy) :: SameAt(before, now, p)
  }

  lemma Unchanged(before: Nodes, data: Path, copy: Path)
    ensures SameWithin(before, before, data) && SameOutside(before, before, copy)
    ensures SameElsewhere(before, before, data, copy)
  {
  }

  /** Taking the copy does not touch the data directory. */
  lemma AfterCopying(before: Nodes, now: Nodes, data: Path, suffix: string)
    requires Home(data, before) && SameOutside(before, now, SnapshotPath(data, suffix))
    requires data == [] || SnapshotPath(data, suffix) in before ==> now == before
    ensures SameWithin(before, now, data) && SameElsewhere(before, now, data, SnapshotPath(data, suffix))
    ensures WellFormed(now) ==> Home(data, now)
  {
    var copy := SnapshotPath(data, suffix);
    if data == [] || copy in before {
      Unchanged(before, data, copy);
    } else {
      SnapshotIsApart(before, data, suffix);
      forall p | Within(p, data) ensures SameAt(before, now, p) {
        Comparable(data, copy, p);
      }
    }
    assert SameAt(before, now, data);
  }

  /** Overwriting does not touch the copy. */
  lemma AfterOverwriting(env: Platform, data: Path, copy: Path, before: Nodes, mid: Nodes, now: Nodes,
                         made: seq<Change>)
    requires Home(data, mid) && Apart(data, copy) && ChangedBy(env, data, mid, now, made)
    requires IsCopy(before, mid, data, copy, LockPath(data), BackupsPath(data)) && SameOutside(before, mid, copy)
    ensures IsCopy(before, now, data, copy, LockPath(data), BackupsPath(data))
    ensures SameElsewhere(before, now, data, copy)
  {
    ChangesStayInside(env, data, mid, now, made);
    forall q | Within(q, copy)
      ensures CopiedAt(before, now, data, copy, q, !Excluded(Origin(q, data, copy), LockPath(data), BackupsPath(data)))
    {
      Comparable(data, copy, q);
      assert SameAt(mid, now, q);
      assert CopiedAt(before, mid, data, copy, q, !Excluded(Origin(q, data, copy), LockPath(data), BackupsPath(data)));
    }
    forall p | !Within(p, data) && !Within(p, copy) ensures SameAt(before, now, p) {
      assert SameAt(before, mid, p) && SameAt(mid, now, p);
    }
  }

  lemma {:induction false} SameMissing(env: Platform, a: Nodes, b: Nodes, data: Path, rows: seq<Row>)
    requires SameWithin(a, b, data)
    ensures Missing(env, a, data, rows) == Missing(env, b, data, rows)
  {
    if rows != [] {
      var last := rows[|rows| - 1];
      SameMissing(env, a, b, data, rows[..|rows| - 1]);
      assert SameAt(a, b, PathOf(env, data, ArtifactBytes(last.id)));
    }
  }

  lemma SameOutcome(env: Platform, a: Nodes, b: Nodes, data: Path, entries: seq<Entry>, snapshot: Snapshot)
    requires SameWithin(a, b, data)
    ensures Verdict(env, a, data, entries, snapshot) == Verdict(env, b, data, entries, snapshot)
    ensures PhaseOutcome(env, a, data, entries, snapshot) == PhaseOutcome(env, b, data, entries, snapshot)
  {
    if env.rows(snapshot).Some? {
      SameMissing(env, a, b, data, Listed(env.rows(snapshot).value));
    }
  }

  lemma SameRestored(env: Platform, data: Path, before: Nodes, mid: Nodes, now: Nodes, after: Nodes,
                     snapshot: Snapshot, f: Files)
    requires SameWithin(before, mid, data) && Restored(env, data, mid, now, snapshot, f) && SameWithin(now, after, data)
    ensures Restored(env, data, before, after, snapshot, f)
  {
    forall p | Within(p, data)
      ensures FileAt(before, p) == FileAt(mid, p) && FileAt(now, p) == FileAt(after, p)
      ensures (IsDir(before, p) <==> IsDir(mid, p)) && (IsDir(now, p) <==> IsDir(after, p))
    {
      assert SameAt(before, mid, p) && SameAt(now, after, p);
    }
    forall place ensures Within(PathOf(env, data, place), data) {
    }
  }

  /** Removing the copy does not touch the data directory. */
  lemma AfterDiscarding(data: Path, copy: Path, before: Nodes, now: Nodes, after: Nodes)
    requires Apart(data, copy) && SameOutside(now, after, copy) && SameElsewhere(before, now, data, copy)
    ensures SameWithin(now, after, data) && SameElsewhere(before, after, data, copy)
  {
    forall p | Within(p, data) ensures SameAt(now, after, p) {
      Comparable(data, copy, p);
    }
    forall p | !Within(p, data) && !Within(p, copy) ensures SameAt(before, after, p) {
      assert SameAt(before, now, p) && SameAt(now, after, p);
    }
  }

  lemma WritableToo(before: Nodes, now: Nodes, data: Path, path: Path)
    requires Home(data, now) && SameWithin(before, now, data) && Within(path, data) && CanWrite(before, path)
    ensures CanWrite(now, path)
  {
    assert SameAt(before, now, path);
    forall k | 0 <= k < |path| ensures FileAt(now, path[..k]).None? {
      if k >= |data| {
        assert SameAt(before, now, path[..k]);
      } else {
        assert path[..k] == data[..k];
        AncestorsExist(now, data, k);
      }
    }
  }

  lemma ClearToo(env: Platform, data: Path, before: Nodes, now: Nodes)
    requires Home(data, now) && SameWithin(before, now, data)
    ensures Clear(env, data, before) ==> Clear(env, data, now)
    ensures PathOf(env, data, PendingFile) in before <==> PathOf(env, data, PendingFile) in now
  {
    hide CanWrite, Home;
    assert SameAt(before, now, PathOf(env, data, PendingFile));
    if Clear(env, data, before) {
      forall place ensures CanWrite(now, PathOf(env, data, place)) {
        WritableToo(before, now, data, PathOf(env, data, place));
      }
    }
  }

  /** What is left of the pair and the marker, for a restore that found no marker: the marker is there in full
      or in part, in part only over the untouched pair; the pair is the old one, the restored one, or the new
      database beside the old log; and the store opens exactly when the marker shows enough of it. */
  ghost predicate PairIsTold(env: Platform, data: Path, before: Nodes, now: Nodes, s: Snapshot) {
    PathOf(env, data, PendingFile) !in before ==>
      var marker, full := FileAt(now, PathOf(env, data, PendingFile)), RestoreMarker(env, data, before, s);
      var live, previous := LivePair(env, data, now), LivePair(env, data, before);
      && (marker.Some? ==> marker.value <= full && (marker.value != full ==> live == previous))
      && (live == previous || live == RestoredPair(s) || live == Pair(Some(s.database), previous.wal))
      && (Opens(env.fingerprint, marker, live) <==> Shows(env.fingerprint, marker, RestoredPair(s), previous, live))
  }

  /** Each file is whole, as it was or as restored; and what is left of the pair is told by the marker. */
  ghost predicate FilesAreWhole(env: Platform, data: Path, before: Nodes, now: Nodes, a: Admitted) {
    && (UniqueIds(Unpacked(env, a.entries).artifacts) ==>
          forall place | place != PendingFile :: OldOrNew(env, data, before, now, a, place))
    && PairIsTold(env, data, before, now, a.snapshot)
  }

  /** Only the marker was written, and not all of it. */
  ghost predicate CutInsideMarker(env: Platform, data: Path, before: Nodes, now: Nodes, s: Snapshot, written: nat) {
    && FileAt(now, PathOf(env, data, PendingFile)) == Some(Cut(RestoreMarker(env, data, before, s), written))
    && forall place | place != PendingFile ::
         FileAt(now, PathOf(env, data, place)) == FileAt(before, PathOf(env, data, place))
  }

  ghost predicate OldOrNew(env: Platform, data: Path, before: Nodes, now: Nodes, a: Admitted, place: Place) {
    var earlier, later := FileAt(before, PathOf(env, data, place)), FileAt(now, PathOf(env, data, place));
    later == earlier || later == RestoredAt(a.snapshot, Unpacked(env, a.entries), place, earlier)
  }

  lemma ToldAfterOverwriting(env: Platform, data: Path, mid: Nodes, now: Nodes, marker: Bytes, made: seq<Change>,
                             s: Snapshot, f: Files)
    requires Lawful(env) && ChangedBy(env, data, mid, now, made) && made <= AllChanges(marker, s, f)
    requires marker <= RestoreMarker(env, data, mid, s)
    requires |made| > 1 ==> marker == RestoreMarker(env, data, mid, s)
    ensures PairIsTold(env, data, mid, now, s)
  {
    hide PathOf, Opens, Shows, PairChanges, FileChanges, AllChanges, MarkerText, Lawful;
    var k, n, previous := |made|, |marker|, LivePair(env, data, mid);
    assert made == AllChanges(marker, s, f)[..k] && marker == RestoreMarker(env, data, mid, s)[..n];
    if PathOf(env, data, PendingFile) !in mid {
      OpensExactly(env, s, f, k, n, previous);
      LeftBehind(marker, s, f, k, previous);
    }
  }

  lemma WholeAfterOverwriting(env: Platform, data: Path, mid: Nodes, now: Nodes, marker: Bytes, made: seq<Change>,
                              a: Admitted)
    requires Lawful(env) && ChangedBy(env, data, mid, now, made)
    requires made <= AllChanges(marker, a.snapshot, Unpacked(env, a.entries))
    requires marker <= RestoreMarker(env, data, mid, a.snapshot)
    requires |made| > 1 ==> marker == RestoreMarker(env, data, mid, a.snapshot)
    ensures FilesAreWhole(env, data, mid, now, a)
  {
    hide PathOf, PairChanges, FileChanges, Unpacked, AllChanges, PairIsTold, RestoreMarker, Lawful;
    var f, k := Unpacked(env, a.entries), |made|;
    assert made == AllChanges(marker, a.snapshot, f)[..k];
    if UniqueIds(f.artifacts) {
      forall place | place != PendingFile ensures OldOrNew(env, data, mid, now, a, place) {
        EachFileIsOldOrNew(marker, a.snapshot, f, k, place, FileAt(mid, PathOf(env, data, place)));
        RestoredBytes(marker, a.snapshot, f, place, FileAt(mid, PathOf(env, data, place)));
      }
    }
    ToldAfterOverwriting(env, data, mid, now, marker, made, a.snapshot, f);
  }

  lemma CutAfterOverwriting(env: Platform, data: Path, before: Nodes, mid: Nodes, now: Nodes, s: Snapshot, written: nat)
    requires SameWithin(before, mid, data)
    requires ChangedBy(env, data, mid, now, [Put(PendingFile, Cut(RestoreMarker(env, data, mid, s), written))])
    ensures CutInsideMarker(env, data, before, now, s, written)
  {
    hide MarkerText, Cut;
    SamePlaces(env, data, before, mid);
    var change := Put(PendingFile, Cut(RestoreMarker(env, data, mid, s), written));
    forall place ensures After([change], place, FileAt(mid, PathOf(env, data, place)))
                      == if place == PendingFile then Some(change.content) else FileAt(mid, PathOf(env, data, place))
    {
      AfterOne([], change, place, FileAt(mid, PathOf(env, data, place)));
      assert [] + [change] == [change];
    }
  }

  lemma SamePlaces(env: Platform, data: Path, a: Nodes, b: Nodes)
    requires SameWithin(a, b, data)
    ensures forall place :: FileAt(a, PathOf(env, data, place)) == FileAt(b, PathOf(env, data, place))
    ensures forall place :: PathOf(env, data, place) in a <==> PathOf(env, data, place) in b
  {
    forall place
      ensures FileAt(a, PathOf(env, data, place)) == FileAt(b, PathOf(env, data, place))
      ensures PathOf(env, data, place) in a <==> PathOf(env, data, place) in b
    {
      assert SameAt(a, b, PathOf(env, data, place));
    }
  }

  lemma SameWhole(env: Platform, data: Path, before: Nodes, mid: Nodes, now: Nodes, after: Nodes, a: Admitted)
    requires SameWithin(before, mid, data) && FilesAreWhole(env, data, mid, now, a) && SameWithin(now, after, data)
    ensures FilesAreWhole(env, data, before, after, a)
  {
    hide PathOf, Opens, Shows, MarkerText, Unpacked, UniqueIds;
    SamePlaces(env, data, before, mid);
    SamePlaces(env, data, now, after);
    if UniqueIds(Unpacked(env, a.entries).artifacts) {
      forall place | place != PendingFile ensures OldOrNew(env, data, before, after, a, place) {
        assert OldOrNew(env, data, mid, now, a, place);
      }
    }
  }

  lemma UntouchedIsWhole(env: Platform, data: Path, before: Nodes, now: Nodes, a: Admitted)
    requires SameWithin(before, now, data)
    ensures FilesAreWhole(env, data, before, now, a)
  {
    hide Unpacked, UniqueIds, MarkerText;
    SamePlaces(env, data, before, now);
    if UniqueIds(Unpacked(env, a.entries).artifacts) {
      forall place | place != PendingFile ensures OldOrNew(env, data, before, now, a, place) {
      }
    }
  }

  lemma TellsOfTheCopy(data: Path, suffix: string, before: Nodes, now: Nodes, source: BackupError)
    requires IsCopy(before, now, data, SnapshotPath(data, suffix), LockPath(data), BackupsPath(data))
    ensures ErrorTellsWhatIsLeft(data, suffix, before, now,
                                 RestoreFailedPreservingSnapshot(SnapshotPath(data, suffix), source))
  {
  }

  lemma TellsOfNothing(data: Path, suffix: string, before: Nodes, now: Nodes, e: BackupError)
    requires SameWithin(before, now, data) && !e.RestoreFailedPreservingSnapshot?
    ensures ErrorTellsWhatIsLeft(data, suffix, before, now, e)
  {
  }

  /** Restores a package. However the run ends, and wherever it is cut off, one of three holds: the data
      directory is as it was, a complete copy of it is in the snapshot directory, or everything is restored
      and verified. */
  method RestoreBackup(disk: Disk, env: Platform, data: Path, running: bool, unlock: Envelope, package: Path,
                       suffix: string, trouble: Trouble)
    returns (r: Outcome<RestoreOutcome>)
    requires WellFormed(disk.nodes) && Lawful(env)
    modifies disk
    ensures var admission := Admission(env, old(disk.nodes), data, running, unlock, FileAt(old(disk.nodes), package));
            && NeverTheOnlyCopy(env, data, suffix, old(disk.nodes), disk.nodes, admission)
            && (admission.Ok? ==> FilesAreWhole(env, data, old(disk.nodes), disk.nodes, admission.value))
            && (!admission.Ok? ==> admission.Err? && r == Err(admission.error) && disk.nodes == old(disk.nodes))
            && (r.Ok? ==> forall e :: !Refuses(env, old(disk.nodes), data, running, unlock,
                                               FileAt(old(disk.nodes), package), e))
            && (r.Ok? ==> SuccessIsComplete(env, data, old(disk.nodes), disk.nodes, admission, r.value))
            && (trouble.Never? && Admissible(env, data, suffix, old(disk.nodes), admission) ==>
                  r == CalmResult(env, data, suffix, old(disk.nodes), disk.nodes, admission))
            && (trouble.Never? && admission.Ok? && Admissible(env, data, suffix, old(disk.nodes), admission)
                && PathOf(env, data, PendingFile) !in old(disk.nodes) ==>
                  Restored(env, data, old(disk.nodes), disk.nodes, admission.value.snapshot,
                           Unpacked(env, admission.value.entries)))
            && (trouble.InsideMarker? && admission.Ok? && Admissible(env, data, suffix, old(disk.nodes), admission)
                && PathOf(env, data, PendingFile) !in old(disk.nodes) ==>
                  r.Crash? && CutInsideMarker(env, data, old(disk.nodes), disk.nodes, admission.value.snapshot,
                                              trouble.written))
    ensures WellFormed(disk.nodes)
    ensures data == [] || SnapshotPath(data, suffix) in old(disk.nodes) ==> disk.nodes == old(disk.nodes)
    ensures r.Err? ==> ErrorTellsWhatIsLeft(data, suffix, old(disk.nodes), disk.nodes, r.error)
    ensures trouble.Never? && r.Ok? ==> forall p | p in disk.nodes :: !Within(p, SnapshotPath(data, suffix))
    ensures SameElsewhere(old(disk.nodes), disk.nodes, data, SnapshotPath(data, suffix))
    ensures LeftOutIsUntouched(old(disk.nodes), disk.nodes, data)
  {
    hide LeftOutIsUntouched, EveryFileSurvives, Refuses, HoldsAllButLockAndBackups;
    hide Restored, Verdict, PhaseOutcome, Clear, ChangedBy, IsCopy, SameOutside, SameWithin, SameElsewhere, Home;
    hide RestoredCount, BadName, AllChanges, Admission, Apart, WellFormed, FilesAreWhole, CutInsideMarker;
    hide RestoreMarker, ErrorTellsWhatIsLeft, SnapshotPath, PathOf, Unpacked, FileAt;
    var calm := !trouble.AnyTime?;
    ghost var before, copy := disk.nodes, SnapshotPath(data, suffix);
    Unchanged(before, data, copy);
    AdmissionNeedsAHome(env, before, data, running, unlock, FileAt(before, package));
    RefusedForTheFirstCause(env, before, data, running, unlock, FileAt(before, package));
    var admission := Admission(env, disk.nodes, data, running, unlock, FileAt(disk.nodes, package));
    LeftOutStays(before, before, data);
    NoFileIsLost(before, before, data, copy);
    if !admission.Ok? {
      TellsOfNothing(data, suffix, before, before, admission.error);
      return Err(admission.error);
    }
    var a := admission.value;
    var preserved := CreatePreRestoreSnapshot(disk, data, suffix, calm);
    ghost var mid := disk.nodes;
    AfterCopying(before, mid, data, suffix);
    LeftOutStays(before, mid, data);
    NoFileIsLost(before, mid, data, copy);
    UntouchedIsWhole(env, data, before, mid, a);
    if !preserved.Ok? {
      if preserved.Err? {
        TellsOfNothing(data, suffix, before, mid, preserved.error);
      }
      return if preserved.Err? then Err(preserved.error) else Crash;
    }
    ClearToo(env, data, before, mid);
    var phase;
    ghost var marker, made;
    phase, marker, made := RestoreDataPhase(disk, env, data, a.entries, a.snapshot, trouble);
    ghost var now := disk.nodes;
    AfterOverwriting(env, data, copy, before, mid, now, made);
    WholeAfterOverwriting(env, data, mid, now, marker, made, a);
    Unchanged(now, data, copy);
    LeftOutAfterOverwriting(env, data, before, mid, now, now, made);
    NoFileIsLost(before, now, data, copy);
    SameWhole(env, data, before, mid, now, now, a);
    if made == AllChanges(marker, a.snapshot, Unpacked(env, a.entries)) {
      AllChangesRestore(env, data, mid, now, marker, a.snapshot, Unpacked(env, a.entries));
      SameRestored(env, data, before, mid, now, now, a.snapshot, Unpacked(env, a.entries));
    }
    if made == [Put(PendingFile, marker)] && marker == Cut(RestoreMarker(env, data, mid, a.snapshot), CutAt(trouble)) {
      CutAfterOverwriting(env, data, before, mid, now, a.snapshot, CutAt(trouble));
    }
    HomeIsWellFormed(data, now);
    if !phase.Ok? {
      if phase.Err? {
        TellsOfTheCopy(data, suffix, before, now, phase.error);
      }
      return if phase.Err? then Err(RestoreFailedPreservingSnapshot(preserved.value, phase.error)) else Crash;
    }
    DiscardSnapshot(disk, preserved.value, calm);
    AfterDiscarding(data, copy, before, now, disk.nodes);
    LeftOutAfterOverwriting(env, data, before, mid, now, disk.nodes, made);
    SameRestored(env, data, before, mid, now, disk.nodes, a.snapshot, Unpacked(env, a.entries));
    SameWhole(env, data, before, mid, now, disk.nodes, a);
    SameOutcome(env, now, disk.nodes, data, a.entries, a.snapshot);
    SuccessMeans(env, now, data, a.entries, a.snapshot);
    var s := Interruption(calm);
    r := if s.Crashed? then Crash else Ok(RestoreOutcome(phase.value, a.pending));
  }

  lemma SuccessMeans(env: Platform, nodes: Nodes, data: Path, entries: seq<Entry>, snapshot: Snapshot)
    ensures PhaseOutcome(env, nodes, data, entries, snapshot).Ok? ==>
              && BadName(env, entries).None? && Verdict(env, nodes, data, entries, snapshot) == Ok(())
              && PhaseOutcome(env, nodes, data, entries, snapshot).value == RestoredCount(Unpacked(env, entries))
  {
  }

  function CutAt(trouble: Trouble): nat {
    if trouble.InsideMarker? then trouble.written else 0
  }

  lemma HomeIsWellFormed(data: Path, nodes: Nodes)
    requires Home(data, nodes)
    ensures WellFormed(nodes) && IsDir(nodes, data)
  {
  }

  /** The pair is as it was, and the store refuses it exactly if the fourth word of the marker is not all
      there (unless the restore would not have changed the pair, and the fourth word was begun). */
  ghost predicate RefusedByItsMarker(env: Platform, data: Path, before: Nodes, now: Nodes, s: Snapshot, written: nat) {
    var previous, full := LivePair(env, data, before), RestoreMarker(env, data, before, s);
    && LivePair(env, data, now) == previous
    && (!Opens(env.fingerprint, FileAt(now, PathOf(env, data, PendingFile)), previous) <==>
          && written + 1 < |full|
          && (previous != RestoredPair(s) || written <= FourthWord(env.fingerprint, RestoredPair(s), previous)))
  }

  lemma WhatTheCutLeaves(env: Platform, data: Path, before: Nodes, now: Nodes, s: Snapshot, written: nat)
    requires Lawful(env) && CutInsideMarker(env, data, before, now, s, written)
    ensures RefusedByItsMarker(env, data, before, now, s, written)
    ensures written == 0 ==>
              !Opens(env.fingerprint, FileAt(now, PathOf(env, data, PendingFile)), LivePair(env, data, now))
  {
    hide Opens, MarkerText, FourthWord, PathOf, FileAt, Lawful;
    var previous, full := LivePair(env, data, before), RestoreMarker(env, data, before, s);
    var f := Files(None, None, None, None, None, []);
    TornMarkerRefusesExactly(env, s, f, |Cut(full, written)|, previous);
    LeftBehind(Cut(full, written), s, f, 1, previous);
    FourthWordIsBegun(env, RestoredPair(s), previous);
  }

  /** A run that shows the marker's weak side: nothing goes wrong but that the run is cut off inside the
      marker. */
  method RestoreCutInsideMarker(disk: Disk, env: Platform, data: Path, unlock: Envelope, package: Path,
                                suffix: string, written: nat)
    returns (r: Outcome<RestoreOutcome>, ghost a: Admitted)
    requires WellFormed(disk.nodes) && Lawful(env) && PathOf(env, data, PendingFile) !in disk.nodes
    requires Admission(env, disk.nodes, data, false, unlock, FileAt(disk.nodes, package)).Ok?
    requires Admissible(env, data, suffix, disk.nodes,
                        Admission(env, disk.nodes, data, false, unlock, FileAt(disk.nodes, package)))
    modifies disk
    ensures Admission(env, old(disk.nodes), data, false, unlock, FileAt(old(disk.nodes), package)) == Ok(a)
    ensures r.Crash? && RefusedByItsMarker(env, data, old(disk.nodes), disk.nodes, a.snapshot, written)
    ensures written == 0 ==>
              !Opens(env.fingerprint, FileAt(disk.nodes, PathOf(env, data, PendingFile)),
                     LivePair(env, data, disk.nodes))
  {
    hide Admission, Admissible, Opens, RefusedByItsMarker, NeverTheOnlyCopy, SameElsewhere, Restored, CutInsideMarker;
    hide WellFormed, Lawful, PathOf, FileAt, FilesAreWhole, SuccessIsComplete, CalmResult, SnapshotPath, LivePair;
    ghost var before := disk.nodes;
    a := Admission(env, disk.nodes, data, false, unlock, FileAt(disk.nodes, package)).value;
    r := RestoreBackup(disk, env, data, false, unlock, package, suffix, InsideMarker(written));
    WhatTheCutLeaves(env, data, before, disk.nodes, a.snapshot, written);
  }
}
