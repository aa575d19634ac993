/** The steps of a restore: what it changes in a data directory, in order, and the operations on the disk
    that make each change, or fail or are cut off before or after making it. */
module RestoreSteps {
  import opened Wrappers

  import opened DataDirectory
  import opened BackupPackage
  import opened PendingMarker

  // ----- What a restore changes, in order -----

  datatype Change = Put(place: Place, content: Bytes) | Delete(place: Place)

  /** The file at a place after some changes. */
  function After(changes: seq<Change>, place: Place, before: Option<Bytes>): Option<Bytes> {
    if changes == [] then before else
      var last := changes[|changes| - 1];
      if last.place != place then After(changes[..|changes| - 1], place, before)
      else if last.Put? then Some(last.content) else None
  }

  /** The database files: the marker first, then the pair, then the marker again. */
  function PairChanges(marker: Bytes, s: Snapshot): seq<Change> {
    [Put(PendingFile, marker),
     Put(DatabaseFile, s.database),
     if s.wal.Some? then Put(WalFile, s.wal.value) else Delete(WalFile),
     Delete(ShmFile),
     Delete(PendingFile)]
  }

  function PutIf(place: Place, content: Option<Bytes>): seq<Change> {
    if content.Some? then [Put(place, content.value)] else []
  }

  function ArtifactChanges(artifacts: seq<(Uuid, Bytes)>): seq<Change> {
    seq(|artifacts|, i requires 0 <= i < |artifacts| => Put(ArtifactBytes(artifacts[i].0), artifacts[i].1))
  }

  /** The other files, in the order they are written. */
  function FileChanges(f: Files): seq<Change> {
    FixedChanges(f) + ArtifactChanges(f.artifacts)
  }

  function FixedChanges(f: Files): seq<Change> {
    PutIf(KeyFile, f.masterKey) + PutIf(SystemKeyFile, f.systemKey) + PutIf(MarkerFile, f.marker)
    + PutIf(CertificateFile, f.certificate) + PutIf(PrivateKeyFile, f.privateKey)
  }

  function AllChanges(marker: Bytes, s: Snapshot, f: Files): seq<Change> {
    PairChanges(marker, s) + FileChanges(f)
  }

  /** The bytes a package holds for a place; of several for one artifact the last counts. */
  function Packaged(s: Snapshot, f: Files, place: Place): Option<Bytes> {
    match place
    case DatabaseFile => Some(s.database)
    case WalFile => s.wal
    case ShmFile => None
    case PendingFile => None
    case KeyFile => f.masterKey
    case SystemKeyFile => f.systemKey
    case MarkerFile => f.marker
    case CertificateFile => f.certificate
    case PrivateKeyFile => f.privateKey
    case ArtifactBytes(id) => LastOf(f.artifacts, id)
  }

  function LastOf(artifacts: seq<(Uuid, Bytes)>, id: Uuid): Option<Bytes> {
    if artifacts == [] then None else
      var last := artifacts[|artifacts| - 1];
      if last.0 == id then Some(last.1) else LastOf(artifacts[..|artifacts| - 1], id)
  }

  lemma {:induction false} AfterBoth(a: seq<Change>, b: seq<Change>, place: Place, before: Option<Bytes>)
    ensures After(a + b, place, before) == After(b, place, After(a, place, before))
  {
    if b == [] {
      assert a + b == a;
    } else {
      assert (a + b)[..|a + b| - 1] == a + b[..|b| - 1];
      AfterBoth(a, b[..|b| - 1], place, before);
    }
  }

  lemma AfterOne(changes: seq<Change>, c: Change, place: Place, before: Option<Bytes>)
    ensures After(changes + [c], place, before)
         == if c.place != place then After(changes, place, before) else if c.Put? then Some(c.content) else None
  {
    assert (changes + [c])[..|changes|] == changes;
  }

  lemma AfterPutIf(changes: seq<Change>, at: Place, content: Option<Bytes>, place: Place, before: Option<Bytes>)
    ensures After(changes + PutIf(at, content), place, before)
         == if place == at && content.Some? then content else After(changes, place, before)
  {
    if content.None? {
      assert changes + PutIf(at, content) == changes;
    } else {
      assert (changes + PutIf(at, content))[..|changes|] == changes;
    }
  }

  lemma {:induction false} AfterArtifacts(artifacts: seq<(Uuid, Bytes)>, place: Place, before: Option<Bytes>)
    ensures After(ArtifactChanges(artifacts), place, before)
         == if place.ArtifactBytes? && LastOf(artifacts, place.id).Some? then LastOf(artifacts, place.id) else before
  {
    if artifacts != [] {
      var front := artifacts[..|artifacts| - 1];
      AfterArtifacts(front, place, before);
      assert ArtifactChanges(artifacts)[..|artifacts| - 1] == ArtifactChanges(front);
    }
  }

  lemma AfterPair(marker: Bytes, s: Snapshot, place: Place, before: Option<Bytes>)
    ensures After(PairChanges(marker, s), place, before)
         == if place == DatabaseFile then Some(s.database)
            else if place == WalFile then s.wal
            else if place == ShmFile || place == PendingFile then None else before
  {
    var changes := PairChanges(marker, s);
    assert changes == [] + [changes[0]] + [changes[1]] + [changes[2]] + [changes[3]] + [changes[4]];
    AfterOne([], changes[0], place, before);
    AfterOne([] + [changes[0]], changes[1], place, before);
    AfterOne([] + [changes[0]] + [changes[1]], changes[2], place, before);
    AfterOne([] + [changes[0]] + [changes[1]] + [changes[2]], changes[3], place, before);
    AfterOne([] + [changes[0]] + [changes[1]] + [changes[2]] + [changes[3]], changes[4], place, before);
  }

  lemma AfterNothing(place: Place, before: Option<Bytes>)
    ensures After([], place, before) == before
  {
  }

  lemma AfterFiles(f: Files, place: Place, before: Option<Bytes>)
    ensures After(FileChanges(f), place, before)
         == if place == DatabaseFile || place == WalFile then before
            else if Packaged(Snapshot([], None), f, place).Some? then Packaged(Snapshot([], None), f, place) else before
  {
    hide After, PutIf, LastOf;
    var c0: seq<Change> := [];
    AfterPutIf(c0, KeyFile, f.masterKey, place, before);
    var c1 := c0 + PutIf(KeyFile, f.masterKey);
    AfterPutIf(c1, SystemKeyFile, f.systemKey, place, before);
    var c2 := c1 + PutIf(SystemKeyFile, f.systemKey);
    AfterPutIf(c2, MarkerFile, f.marker, place, before);
    var c3 := c2 + PutIf(MarkerFile, f.marker);
    AfterPutIf(c3, CertificateFile, f.certificate, place, before);
    var c4 := c3 + PutIf(CertificateFile, f.certificate);
    AfterPutIf(c4, PrivateKeyFile, f.privateKey, place, before);
    var c5 := c4 + PutIf(PrivateKeyFile, f.privateKey);
    AfterBoth(c5, ArtifactChanges(f.artifacts), place, before);
    AfterArtifacts(f.artifacts, place, After(c5, place, before));
    assert c1 == PutIf(KeyFile, f.masterKey);
    AfterNothing(place, before);
  }

  /** What a completed restore leaves at each place: the packaged bytes where the package has some; nothing
      where an old log, shared-memory index or marker was; and what was there everywhere else. */
  lemma RestoredBytes(marker: Bytes, s: Snapshot, f: Files, place: Place, before: Option<Bytes>)
    ensures After(AllChanges(marker, s, f), place, before)
         == if Packaged(s, f, place).Some? then Packaged(s, f, place)
            else if place in {WalFile, ShmFile, PendingFile} then None else before
  {
    AfterBoth(PairChanges(marker, s), FileChanges(f), place, before);
    AfterPair(marker, s, place, before);
    AfterFiles(f, place, After(PairChanges(marker, s), place, before));
  }

  // ----- A restore cut off after any number of changes -----

  /** Apart from the marker, no place is changed twice. */
  ghost predicate ChangedOnce(changes: seq<Change>) {
    forall i, j | 0 <= i < j < |changes| && changes[i].place == changes[j].place :: changes[i].place == PendingFile
  }

  lemma {:induction false} UntouchedStays(changes: seq<Change>, place: Place, before: Option<Bytes>)
    requires forall c <- changes :: c.place != place
    ensures After(changes, place, before) == before
  {
    if changes != [] {
      UntouchedStays(changes[..|changes| - 1], place, before);
    }
  }

  lemma {:induction false} TouchedOrSame(changes: seq<Change>, place: Place, before: Option<Bytes>)
    ensures After(changes, place, before) == before || exists c <- changes :: c.place == place
  {
    if forall c <- changes :: c.place != place {
      UntouchedStays(changes, place, before);
    }
  }

  /** The files of a package in the order of their places. */
  function Rank(place: Place): nat {
    match place
    case PendingFile => 0
    case DatabaseFile => 1
    case WalFile => 2
    case ShmFile => 3
    case KeyFile => 4
    case SystemKeyFile => 5
    case MarkerFile => 6
    case CertificateFile => 7
    case PrivateKeyFile => 8
    case ArtifactBytes(_) => 9
  }

  /** Apart from the marker, the changes are in the order of their places. */
  ghost predicate InOrder(changes: seq<Change>) {
    forall i, j | 0 <= i < j < |changes| ::
      changes[j].place == PendingFile || Rank(changes[i].place) <= Rank(changes[j].place)
  }

  ghost predicate RankedBetween(changes: seq<Change>, low: nat, high: nat) {
    InOrder(changes) && forall c <- changes :: low <= Rank(c.place) < high
  }

  lemma RankedTogether(a: seq<Change>, b: seq<Change>, low: nat, middle: nat, high: nat)
    requires RankedBetween(a, low, middle) && RankedBetween(b, middle, high) && low <= middle <= high
    ensures RankedBetween(a + b, low, high)
    ensures ChangedOnce(a) && ChangedOnce(b) ==> ChangedOnce(a + b)
  {
  }

  lemma ArtifactsRanked(artifacts: seq<(Uuid, Bytes)>)
    ensures RankedBetween(ArtifactChanges(artifacts), 9, 10)
    ensures UniqueIds(artifacts) ==> ChangedOnce(ArtifactChanges(artifacts))
  {
  }

  lemma FilesChangedOnce(f: Files)
    ensures RankedBetween(FileChanges(f), 4, 10)
    ensures UniqueIds(f.artifacts) ==> ChangedOnce(FileChanges(f))
  {
    hide ChangedOnce, InOrder, UniqueIds;
    ArtifactsRanked(f.artifacts);
    PutIfRanked(KeyFile, f.masterKey);
    PutIfRanked(SystemKeyFile, f.systemKey);
    PutIfRanked(MarkerFile, f.marker);
    PutIfRanked(CertificateFile, f.certificate);
    PutIfRanked(PrivateKeyFile, f.privateKey);
    var c1 := PutIf(KeyFile, f.masterKey);
    var c2 := c1 + PutIf(SystemKeyFile, f.systemKey);
    var c3 := c2 + PutIf(MarkerFile, f.marker);
    var c4 := c3 + PutIf(CertificateFile, f.certificate);
    RankedTogether(c1, PutIf(SystemKeyFile, f.systemKey), 4, 5, 6);
    RankedTogether(c2, PutIf(MarkerFile, f.marker), 4, 6, 7);
    RankedTogether(c3, PutIf(CertificateFile, f.certificate), 4, 7, 8);
    RankedTogether(c4, PutIf(PrivateKeyFile, f.privateKey), 4, 8, 9);
    RankedTogether(c4 + PutIf(PrivateKeyFile, f.privateKey), ArtifactChanges(f.artifacts), 4, 9, 10);
  }

  lemma PutIfRanked(place: Place, content: Option<Bytes>)
    ensures RankedBetween(PutIf(place, content), Rank(place), Rank(place) + 1)
    ensures ChangedOnce(PutIf(place, content))
  {
  }

  lemma PairRanked(marker: Bytes, s: Snapshot)
    ensures RankedBetween(PairChanges(marker, s), 0, 4) && ChangedOnce(PairChanges(marker, s))
  {
  }

  lemma AllChangedOnce(marker: Bytes, s: Snapshot, f: Files)
    ensures InOrder(AllChanges(marker, s, f))
    ensures UniqueIds(f.artifacts) ==> ChangedOnce(AllChanges(marker, s, f))
  {
    hide ChangedOnce, InOrder, PairChanges, FileChanges, UniqueIds;
    FilesChangedOnce(f);
    PairRanked(marker, s);
    RankedTogether(PairChanges(marker, s), FileChanges(f), 0, 4, 10);
  }

  /** Whenever a restore is cut off, each file is whole: as it was, or as the completed restore leaves it.
      Only the marker of a restore in progress is neither. */
  lemma EachFileIsOldOrNew(marker: Bytes, s: Snapshot, f: Files, k: nat, place: Place, before: Option<Bytes>)
    requires UniqueIds(f.artifacts) && k <= |AllChanges(marker, s, f)| && place != PendingFile
    ensures var now := After(AllChanges(marker, s, f)[..k], place, before);
            now == before || now == After(AllChanges(marker, s, f), place, before)
  {
    hide After, PairChanges, FileChanges, AllChanges;
    var all := AllChanges(marker, s, f);
    AllChangedOnce(marker, s, f);
    assert all == all[..k] + all[k..];
    AfterBoth(all[..k], all[k..], place, before);
    TouchedOrSame(all[..k], place, before);
    if exists c <- all[..k] :: c.place == place {
      var i :| 0 <= i < k && all[i].place == place;
      forall c <- all[k..] ensures c.place != place {
        var j :| 0 <= j < |all[k..]| && all[k..][j] == c;
        assert all[k + j] == c;
      }
      UntouchedStays(all[k..], place, After(all[..k], place, before));
    }
  }

  /** Wherever a restore is cut off, it has come to the places in their order: the database, its log and index,
      the keys, the instance marker, the certificate and its key, the artifacts. When one of them is no longer
      as it was, every earlier one is as the completed restore leaves it. */
  lemma RestoredInOrder(marker: Bytes, s: Snapshot, f: Files, k: nat, place: Place, before: Option<Bytes>,
                        earlier: Place, earlierBefore: Option<Bytes>)
    requires k <= |AllChanges(marker, s, f)| && place != PendingFile && earlier != PendingFile
    requires Rank(earlier) < Rank(place) && After(AllChanges(marker, s, f)[..k], place, before) != before
    ensures After(AllChanges(marker, s, f)[..k], earlier, earlierBefore)
         == After(AllChanges(marker, s, f), earlier, earlierBefore)
  {
    hide After, PairChanges, FileChanges, AllChanges;
    var all := AllChanges(marker, s, f);
    AllChangedOnce(marker, s, f);
    TouchedOrSame(all[..k], place, before);
    var i :| 0 <= i < k && all[i].place == place;
    forall c <- all[k..] ensures c.place != earlier {
      var j :| 0 <= j < |all[k..]| && all[k..][j] == c;
      assert all[k + j] == c;
    }
    assert all == all[..k] + all[k..];
    AfterBoth(all[..k], all[k..], earlier, earlierBefore);
    UntouchedStays(all[k..], earlier, After(all[..k], earlier, earlierBefore));
  }

  // ----- The marker of a restore in progress -----

  /** The pair and the marker after the first k changes. */
  lemma PairAfter(marker: Bytes, s: Snapshot, f: Files, k: nat, place: Place, before: Option<Bytes>)
    requires k <= |AllChanges(marker, s, f)|
    ensures var now := After(AllChanges(marker, s, f)[..k], place, before);
            && (place == DatabaseFile ==> now == if k < 2 then before else Some(s.database))
            && (place == WalFile ==> now == if k < 3 then before else s.wal)
            && (place == PendingFile ==> now == if k < 1 then before else if k < 5 then Some(marker) else None)
  {
    var all, pair := AllChanges(marker, s, f), PairChanges(marker, s);
    if k <= 5 {
      assert all[..k] == pair[..k];
      PrefixOfPair(marker, s, k, place, before);
    } else {
      FilesTouchNoPair(f);
      var rest := FileChanges(f)[..k - 5];
      assert all[..k] == pair + rest;
      AfterBoth(pair, rest, place, before);
      AfterPair(marker, s, place, before);
      if Rank(place) < 4 {
        UntouchedStays(rest, place, After(pair, place, before));
      }
    }
  }

  ghost predicate RankedFrom(changes: seq<Change>, low: nat) {
    forall c <- changes :: low <= Rank(c.place)
  }

  lemma BothRankedFrom(a: seq<Change>, place: Place, content: Option<Bytes>, low: nat)
    requires RankedFrom(a, low) && low <= Rank(place)
    ensures RankedFrom(a + PutIf(place, content), low)
  {
  }

  lemma FilesTouchNoPair(f: Files)
    ensures RankedFrom(FileChanges(f), 4)
  {
    hide RankedFrom, PutIf, ArtifactChanges;
    var c1 := PutIf(KeyFile, f.masterKey);
    assert RankedFrom([], 4) && c1 == [] + c1 by {
      EmptyRanked();
    }
    BothRankedFrom([], KeyFile, f.masterKey, 4);
    var c2 := c1 + PutIf(SystemKeyFile, f.systemKey);
    BothRankedFrom(c1, SystemKeyFile, f.systemKey, 4);
    var c3 := c2 + PutIf(MarkerFile, f.marker);
    BothRankedFrom(c2, MarkerFile, f.marker, 4);
    var c4 := c3 + PutIf(CertificateFile, f.certificate);
    BothRankedFrom(c3, CertificateFile, f.certificate, 4);
    BothRankedFrom(c4, PrivateKeyFile, f.privateKey, 4);
    ArtifactsRankedFrom(c4 + PutIf(PrivateKeyFile, f.privateKey), f.artifacts);
  }

  lemma EmptyRanked()
    ensures RankedFrom([], 4)
  {
  }

  lemma ArtifactsRankedFrom(a: seq<Change>, artifacts: seq<(Uuid, Bytes)>)
    requires RankedFrom(a, 4)
    ensures RankedFrom(a + ArtifactChanges(artifacts), 4)
  {
  }

  lemma PrefixOfPair(marker: Bytes, s: Snapshot, k: nat, place: Place, before: Option<Bytes>)
    requires k <= 5
    ensures var now := After(PairChanges(marker, s)[..k], place, before);
            && (place == DatabaseFile ==> now == if k < 2 then before else Some(s.database))
            && (place == WalFile ==> now == if k < 3 then before else s.wal)
            && (place == PendingFile ==> now == if k < 1 then before else if k < 5 then Some(marker) else None)
  {
    var changes := PairChanges(marker, s);
    if k > 0 {
      PrefixOfPair(marker, s, k - 1, place, before);
      assert changes[..k] == changes[..k - 1] + [changes[k - 1]];
      AfterOne(changes[..k - 1], changes[k - 1], place, before);
    }
  }

  /** The pair a restore puts in place. */
  function RestoredPair(s: Snapshot): Pair {
    Pair(Some(s.database), s.wal)
  }

  /** The pair and the marker a restore leaves when it is cut off after `k` changes, its marker `text` being
      what there is of it. */
  function LeftPair(text: Bytes, s: Snapshot, f: Files, k: nat, previous: Pair): Pair
    requires k <= |AllChanges(text, s, f)|
  {
    var changes := AllChanges(text, s, f)[..k];
    Pair(After(changes, DatabaseFile, previous.database), After(changes, WalFile, previous.wal))
  }

  function LeftMarker(text: Bytes, s: Snapshot, f: Files, k: nat): Option<Bytes>
    requires k <= |AllChanges(text, s, f)|
  {
    After(AllChanges(text, s, f)[..k], PendingFile, None)
  }

  lemma LeftBehind(text: Bytes, s: Snapshot, f: Files, k: nat, previous: Pair)
    requires k <= |AllChanges(text, s, f)|
    ensures LeftPair(text, s, f, k, previous)
         == Pair(if k < 2 then previous.database else Some(s.database), if k < 3 then previous.wal else s.wal)
    ensures LeftMarker(text, s, f, k) == if 1 <= k < 5 then Some(text) else None
  {
    PairAfter(text, s, f, k, DatabaseFile, previous.database);
    PairAfter(text, s, f, k, WalFile, previous.wal);
    PairAfter(text, s, f, k, PendingFile, None);
  }

  /** In every state a restore can leave, whatever it found and wherever it is cut off, inside the marker
      included, the store opens exactly when the marker file shows enough of the pair that is there: there is
      no marker, or the pair is the one from before and all four words are there, or the pair is the restored
      one and the fourth word was begun. */
  lemma OpensExactly(env: Platform, s: Snapshot, f: Files, k: nat, n: nat, previous: Pair)
    requires Lawful(env) && n <= |MarkerText(env.fingerprint, RestoredPair(s), previous)|
    requires k > 1 ==> n == |MarkerText(env.fingerprint, RestoredPair(s), previous)|
    requires k <= |AllChanges(MarkerText(env.fingerprint, RestoredPair(s), previous)[..n], s, f)|
    ensures var text := MarkerText(env.fingerprint, RestoredPair(s), previous)[..n];
            var marker, live := LeftMarker(text, s, f, k), LeftPair(text, s, f, k, previous);
            Opens(env.fingerprint, marker, live) <==> Shows(env.fingerprint, marker, RestoredPair(s), previous, live)
  {
    hide Opens, Shows, MarkerText, AllChanges;
    var text := MarkerText(env.fingerprint, RestoredPair(s), previous)[..n];
    LeftBehind(text, s, f, k, previous);
    if 1 <= k < 5 {
      OpensByWhatIsShown(env.fingerprint, RestoredPair(s), previous, n, LeftPair(text, s, f, k, previous));
    } else {
      NoMarkerOpens(env, RestoredPair(s), previous, LeftPair(text, s, f, k, previous));
    }
  }

  lemma NoMarkerOpens(env: Platform, restored: Pair, previous: Pair, live: Pair)
    ensures Opens(env.fingerprint, None, live) && Shows(env.fingerprint, None, restored, previous, live)
  {
  }

  /** The fourth word of a marker is not empty, so it is begun before it is all there. */
  lemma FourthWordIsBegun(env: Platform, restored: Pair, previous: Pair)
    requires Lawful(env)
    ensures FourthWord(env.fingerprint, restored, previous) + 1 < |MarkerText(env.fingerprint, restored, previous)|
  {
    hide Joined, LastStart;
    WordsAreWords(env.fingerprint, restored, previous);
    JoinedLength(Words(env.fingerprint, restored, previous));
  }

  /** A database never opens beside a log of another generation: once the marker is complete, the store opens
      exactly when the pair is whole, as it was or as restored; and the pair is in two halves only between the
      two renames, when both files differ. */
  lemma OpensExactlyWhenWhole(env: Platform, s: Snapshot, f: Files, k: nat, previous: Pair)
    requires Lawful(env) && k <= |AllChanges(MarkerText(env.fingerprint, RestoredPair(s), previous), s, f)|
    ensures var text := MarkerText(env.fingerprint, RestoredPair(s), previous);
            var marker, live := LeftMarker(text, s, f, k), LeftPair(text, s, f, k, previous);
            && (Opens(env.fingerprint, marker, live) <==> live == previous || live == RestoredPair(s))
            && (live == previous || live == RestoredPair(s)
                <==> k != 2 || previous.database == Some(s.database) || previous.wal == s.wal)
  {
    hide Opens, MarkerText, AllChanges, FourthWord;
    var text := MarkerText(env.fingerprint, RestoredPair(s), previous);
    assert text[..|text|] == text;
    LeftBehind(text, s, f, k, previous);
    OpensExactly(env, s, f, k, |text|, previous);
    FourthWordIsBegun(env, RestoredPair(s), previous);
  }

  /** A marker cut short over a pair that was never touched: with the marker alone written, after n of its
      bytes, the pair is the one from before, and the store refuses it exactly if the fourth word is not all
      there, unless the restore would not have changed the pair and the fourth word was begun. */
  lemma TornMarkerRefusesExactly(env: Platform, s: Snapshot, f: Files, n: nat, previous: Pair)
    requires Lawful(env) && n <= |MarkerText(env.fingerprint, RestoredPair(s), previous)|
    ensures var full := MarkerText(env.fingerprint, RestoredPair(s), previous);
            var live := LeftPair(full[..n], s, f, 1, previous);
            && live == previous
            && (!Opens(env.fingerprint, LeftMarker(full[..n], s, f, 1), live) <==>
                  n + 1 < |full|
                  && (previous != RestoredPair(s) || n <= FourthWord(env.fingerprint, RestoredPair(s), previous)))
  {
    hide Opens, MarkerText, FourthWord;
    var full := MarkerText(env.fingerprint, RestoredPair(s), previous);
    LeftBehind(full[..n], s, f, 1, previous);
    OpensExactly(env, s, f, 1, n, previous);
    FourthWordIsBegun(env, RestoredPair(s), previous);
  }

  /** In particular a marker of which nothing was written refuses any untouched pair. */
  lemma EmptyMarkerRefusesUntouchedPair(env: Platform, s: Snapshot, f: Files, previous: Pair)
    requires Lawful(env)
    ensures LeftPair([], s, f, 1, previous) == previous && LeftMarker([], s, f, 1) == Some([])
    ensures !Opens(env.fingerprint, Some([]), previous)
  {
    LeftBehind([], s, f, 1, previous);
  }

  // ----- Changes on the disk -----

  predicate IsDir(nodes: Nodes, p: Path) {
    p in nodes && nodes[p] == Dir
  }

  /** The data directory exists. */
  ghost predicate Home(data: Path, nodes: Nodes) {
    WellFormed(nodes) && IsDir(nodes, data)
  }

  ghost predicate IsPlace(env: Platform, data: Path, p: Path) {
    exists place :: PathOf(env, data, place) == p
  }

  ghost predicate AbovePlace(env: Platform, data: Path, p: Path) {
    exists place :: p < PathOf(env, data, place)
  }

  /** The files of the data directory changed by exactly these changes; directories stay, and new ones hold
      files of the data directory. */
  ghost predicate ChangedBy(env: Platform, data: Path, before: Nodes, after: Nodes, changes: seq<Change>) {
    && (forall place ::
          FileAt(after, PathOf(env, data, place)) == After(changes, place, FileAt(before, PathOf(env, data, place))))
    && (forall p | !IsPlace(env, data, p) :: FileAt(after, p) == FileAt(before, p))
    && (forall p | IsDir(before, p) :: IsDir(after, p))
    && (forall p | IsDir(after, p) :: IsDir(before, p) || AbovePlace(env, data, p))
  }

  lemma NothingChanged(env: Platform, data: Path, nodes: Nodes)
    ensures ChangedBy(env, data, nodes, nodes, [])
  {
  }

  lemma ChangedTwice(env: Platform, data: Path, a: Nodes, b: Nodes, c: Nodes, first: seq<Change>, second: seq<Change>)
    requires ChangedBy(env, data, a, b, first) && ChangedBy(env, data, b, c, second)
    ensures ChangedBy(env, data, a, c, first + second)
  {
    forall place
      ensures FileAt(c, PathOf(env, data, place)) == After(first + second, place, FileAt(a, PathOf(env, data, place)))
    {
      AfterBoth(first, second, place, FileAt(a, PathOf(env, data, place)));
    }
  }

  lemma PlaceIsWithin(env: Platform, data: Path, place: Place)
    ensures Within(PathOf(env, data, place), data)
  {
  }

  lemma AboveDataIsDirectory(env: Platform, data: Path, nodes: Nodes, p: Path)
    requires Home(data, nodes) && !Within(p, data)
    ensures !IsPlace(env, data, p) && (AbovePlace(env, data, p) ==> IsDir(nodes, p))
  {
    hide PathOf, WellFormed;
    forall place ensures PathOf(env, data, place) != p {
      PlaceIsWithin(env, data, place);
    }
    if AbovePlace(env, data, p) {
      var place :| p < PathOf(env, data, place);
      PlaceIsWithin(env, data, place);
      Comparable(p, data, PathOf(env, data, place));
      assert data[..|p|] == p;
      AncestorsExist(nodes, data, |p|);
    }
  }

  /** Outside the data directory nothing changes. */
  lemma ChangesStayInside(env: Platform, data: Path, before: Nodes, after: Nodes, changes: seq<Change>)
    requires Home(data, before) && ChangedBy(env, data, before, after, changes)
    ensures SameOutside(before, after, data)
  {
    hide Home, After, PathOf, IsPlace, AbovePlace;
    forall p | !Within(p, data) ensures SameAt(before, after, p) {
      AboveDataIsDirectory(env, data, before, p);
      assert FileAt(after, p) == FileAt(before, p);
    }
  }

  /** The path can be written: it is not a directory, and no file is in the way of one above it. */
  ghost predicate CanWrite(nodes: Nodes, path: Path) {
    path != [] && !IsDir(nodes, path) && forall k | 0 <= k < |path| :: FileAt(nodes, path[..k]).None?
  }

  ghost predicate Clear(env: Platform, data: Path, nodes: Nodes) {
    forall place :: CanWrite(nodes, PathOf(env, data, place))
  }

  lemma ClearStays(env: Platform, data: Path, before: Nodes, after: Nodes, changes: seq<Change>)
    requires Lawful(env) && Clear(env, data, before) && ChangedBy(env, data, before, after, changes)
    ensures Clear(env, data, after)
  {
    forall place ensures CanWrite(after, PathOf(env, data, place)) {
      var path := PathOf(env, data, place);
      assert CanWrite(before, path);
      if AbovePlace(env, data, path) {
        var other :| path < PathOf(env, data, other);
        PlacesAreApart(env, data, place, other);
      }
      forall k | 0 <= k < |path| ensures FileAt(after, path[..k]).None? {
        if IsPlace(env, data, path[..k]) {
          var other :| PathOf(env, data, other) == path[..k];
          PlacesAreApart(env, data, other, place);
        }
      }
    }
  }

  // ----- Writing one file -----

  /** At most, the directory and directories above it were added. */
  ghost predicate PreparedAt(before: Nodes, after: Nodes, directory: Path, p: Path) {
    SameAt(before, after, p) || (p !in before && IsDir(after, p) && p <= directory)
  }

  ghost predicate Prepared(before: Nodes, after: Nodes, directory: Path) {
    forall p :: PreparedAt(before, after, directory, p)
  }

  function Parent(path: Path): Path
    requires path != []
  {
    path[..|path| - 1]
  }

  ghost predicate Wrote(before: Nodes, after: Nodes, path: Path, content: Bytes)
    requires path != []
  {
    && FileAt(after, path) == Some(content) && !IsDir(before, path)
    && forall p | p != path :: PreparedAt(before, after, Parent(path), p)
  }

  lemma AddDirectory(nodes: Nodes, directory: Path)
    requires WellFormed(nodes) && directory !in nodes
    requires directory == [] || IsDir(nodes, directory[..|directory| - 1])
    ensures WellFormed(nodes[directory := Dir])
  {
  }

  lemma AddFile(nodes: Nodes, path: Path, content: Bytes)
    requires WellFormed(nodes) && path != [] && !IsDir(nodes, path) && IsDir(nodes, Parent(path))
    ensures WellFormed(nodes[path := File(content)])
  {
  }

  lemma PreparedFiles(before: Nodes, after: Nodes, directory: Path, p: Path)
    requires Prepared(before, after, directory)
    ensures FileAt(after, p) == FileAt(before, p)
    ensures IsDir(before, p) ==> IsDir(after, p)
    ensures !Within(directory, p) ==> (IsDir(after, p) <==> IsDir(before, p))
  {
    assert PreparedAt(before, after, directory, p);
  }

  lemma PreparedMore(before: Nodes, now: Nodes, directory: Path, next: Path)
    ensures Prepared(now, now, directory)
    ensures Prepared(before, now, directory) && next !in now && next <= directory
            ==> Prepared(before, now[next := Dir], directory)
  {
    if Prepared(before, now, directory) && next !in now && next <= directory {
      var after := now[next := Dir];
      forall p ensures PreparedAt(before, after, directory, p) {
        assert PreparedAt(before, now, directory, p);
      }
    }
  }

  /** Creates a directory and those above it, as far as they do not exist. */
  method CreateDirAll(disk: Disk, directory: Path, calm: bool) returns (s: Status)
    requires WellFormed(disk.nodes)
    modifies disk
    ensures WellFormed(disk.nodes) && Prepared(old(disk.nodes), disk.nodes, directory)
    ensures s.Done? ==> IsDir(disk.nodes, directory)
    ensures calm ==> (s.Done? <==> forall k | 0 <= k <= |directory| :: FileAt(old(disk.nodes), directory[..k]).None?)
  {
    hide Prepared, PreparedAt, WellFormed;
    ghost var before := disk.nodes;
    PreparedMore(before, before, directory, []);
    for k := 0 to |directory| + 1
      invariant WellFormed(disk.nodes) && Prepared(before, disk.nodes, directory)
      invariant k > 0 ==> IsDir(disk.nodes, directory[..k - 1])
      invariant forall i | 0 <= i < k :: FileAt(before, directory[..i]).None?
    {
      var next := directory[..k];
      PreparedFiles(before, disk.nodes, directory, next);
      if next in disk.nodes {
        if disk.nodes[next].File? {
          return Failed;
        }
      } else {
        s := Interruption(calm);
        if !s.Done? {
          return;
        }
        assert k > 0 ==> next[..|next| - 1] == directory[..k - 1];
        AddDirectory(disk.nodes, next);
        PreparedMore(before, disk.nodes, directory, next);
        disk.nodes := disk.nodes[next := Dir];
      }
    }
    assert directory[..|directory|] == directory;
    return Done;
  }

  /** Replaces a file atomically: creates the directories above it, writes a temporary sibling, and renames it. */
  method WriteFileAtomic(disk: Disk, path: Path, content: Bytes, calm: bool) returns (s: Status)
    requires WellFormed(disk.nodes) && path != []
    modifies disk
    ensures WellFormed(disk.nodes)
    ensures s.Done? ==> Wrote(old(disk.nodes), disk.nodes, path, content)
    ensures !s.Done? ==> || Prepared(old(disk.nodes), disk.nodes, Parent(path))
                         || Wrote(old(disk.nodes), disk.nodes, path, content)
    ensures calm ==> (s.Done? <==> CanWrite(old(disk.nodes), path))
  {
    ghost var before := disk.nodes;
    var parent := Parent(path);
    assert forall k | 0 <= k < |path| :: parent[..k] == path[..k];
    s := CreateDirAll(disk, parent, calm);
    if !s.Done? {
      return;
    }
    PreparedFiles(before, disk.nodes, parent, path);
    if IsDir(disk.nodes, path) {
      return Failed;
    }
    s := Interruption(calm);
    if !s.Done? {
      return;
    }
    AddFile(disk.nodes, path, content);
    ghost var mid := disk.nodes;
    disk.nodes := disk.nodes[path := File(content)];
    forall p | p != path ensures PreparedAt(before, disk.nodes, parent, p) {
      assert PreparedAt(before, mid, parent, p);
    }
    s := Interruption(calm);
  }

  // ----- Writing and removing at a place -----

  lemma PreparedIsNoChange(env: Platform, data: Path, before: Nodes, after: Nodes, place: Place)
    requires PathOf(env, data, place) != [] && Prepared(before, after, Parent(PathOf(env, data, place)))
    ensures ChangedBy(env, data, before, after, [])
  {
    var path := PathOf(env, data, place);
    forall p
      ensures FileAt(after, p) == FileAt(before, p) && (IsDir(before, p) ==> IsDir(after, p))
      ensures IsDir(after, p) ==> IsDir(before, p) || AbovePlace(env, data, p)
    {
      PreparedFiles(before, after, Parent(path), p);
      assert p <= Parent(path) ==> p < path;
    }
  }

  /** A change at one path that at most adds directories above it. */
  lemma OneChange(env: Platform, data: Path, before: Nodes, after: Nodes, c: Change)
    requires Lawful(env) && PathOf(env, data, c.place) != []
    requires forall p | p != PathOf(env, data, c.place) ::
               PreparedAt(before, after, Parent(PathOf(env, data, c.place)), p)
    requires !IsDir(before, PathOf(env, data, c.place)) && !IsDir(after, PathOf(env, data, c.place))
    requires FileAt(after, PathOf(env, data, c.place)) == if c.Put? then Some(c.content) else None
    ensures ChangedBy(env, data, before, after, [c])
  {
    var path := PathOf(env, data, c.place);
    forall p
      ensures p != path ==> FileAt(after, p) == FileAt(before, p)
      ensures IsDir(before, p) ==> IsDir(after, p)
      ensures IsDir(after, p) ==> IsDir(before, p) || AbovePlace(env, data, p)
    {
      if p != path {
        assert PreparedAt(before, after, Parent(path), p);
        assert p <= Parent(path) ==> p < path;
      }
    }
    forall other
      ensures FileAt(after, PathOf(env, data, other)) == After([c], other, FileAt(before, PathOf(env, data, other)))
    {
      AfterOne([], c, other, FileAt(before, PathOf(env, data, other)));
      assert [] + [c] == [c];
      if PathOf(env, data, other) == path {
        PlacesAreApart(env, data, c.place, other);
      }
    }
  }

  lemma WroteIsAPut(env: Platform, data: Path, before: Nodes, after: Nodes, place: Place, content: Bytes)
    requires Lawful(env) && PathOf(env, data, place) != []
    requires Wrote(before, after, PathOf(env, data, place), content)
    ensures ChangedBy(env, data, before, after, [Put(place, content)])
  {
    OneChange(env, data, before, after, Put(place, content));
  }

  lemma RemoveFile(nodes: Nodes, path: Path)
    requires WellFormed(nodes) && !IsDir(nodes, path)
    ensures WellFormed(nodes - {path})
  {
  }

  lemma RemovedIsADelete(env: Platform, data: Path, before: Nodes, place: Place)
    requires Lawful(env) && !IsDir(before, PathOf(env, data, place))
    ensures ChangedBy(env, data, before, before - {PathOf(env, data, place)}, [Delete(place)])
  {
    hide ChangedBy;
    var path := PathOf(env, data, place);
    var after := before - {path};
    forall p | p != path ensures PreparedAt(before, after, Parent(path), p) {
      assert SameAt(before, after, p);
    }
    OneChange(env, data, before, after, Delete(place));
  }

  lemma HomeStays(env: Platform, data: Path, before: Nodes, after: Nodes, changes: seq<Change>)
    requires Home(data, before) && WellFormed(after) && ChangedBy(env, data, before, after, changes)
    ensures Home(data, after)
  {
  }

  lemma PlaceIsBelowData(env: Platform, data: Path, place: Place)
    ensures PathOf(env, data, place) != []
  {
  }

  /** Writes one restored file. */
  method WriteRestoredFile(disk: Disk, env: Platform, data: Path, place: Place, content: Bytes, calm: bool)
    returns (s: Status, ghost landed: seq<Change>)
    requires Home(data, disk.nodes) && Lawful(env)
    modifies disk
    ensures Home(data, disk.nodes) && ChangedBy(env, data, old(disk.nodes), disk.nodes, landed)
    ensures landed == [Put(place, content)] || (landed == [] && !s.Done?)
    ensures calm && Clear(env, data, old(disk.nodes)) ==> s.Done?
  {
    hide ChangedBy, Prepared, Wrote, CanWrite, WellFormed;
    ghost var before := disk.nodes;
    PlaceIsBelowData(env, data, place);
    var path := PathOf(env, data, place);
    s := WriteFileAtomic(disk, path, content, calm);
    if Prepared(before, disk.nodes, Parent(path)) && !s.Done? {
      PreparedIsNoChange(env, data, before, disk.nodes, place);
      landed := [];
    } else {
      WroteIsAPut(env, data, before, disk.nodes, place, content);
      landed := [Put(place, content)];
    }
    HomeStays(env, data, before, disk.nodes, landed);
  }

  /** Removes a stale file; that it is not there is no error. */
  method RemoveStaleSidecar(disk: Disk, env: Platform, data: Path, place: Place, calm: bool)
    returns (s: Status, ghost landed: seq<Change>)
    requires Home(data, disk.nodes) && Lawful(env)
    modifies disk
    ensures Home(data, disk.nodes) && ChangedBy(env, data, old(disk.nodes), disk.nodes, landed)
    ensures landed == [Delete(place)] || (landed == [] && !s.Done?)
    ensures calm && Clear(env, data, old(disk.nodes)) ==> s.Done?
  {
    hide ChangedBy, WellFormed;
    ghost var before := disk.nodes;
    var path := PathOf(env, data, place);
    NothingChanged(env, data, before);
    if IsDir(disk.nodes, path) {
      assert !CanWrite(before, path);
      return Failed, [];
    }
    if path in disk.nodes {
      s := Interruption(calm);
      if !s.Done? {
        return s, [];
      }
    }
    RemovedIsADelete(env, data, before, place);
    RemoveFile(before, path);
    disk.nodes := disk.nodes - {path};
    landed := [Delete(place)];
    HomeStays(env, data, before, disk.nodes, landed);
    s := Interruption(calm);
  }

  /** What may go wrong with the disk during a restore: anything at any time, nothing, or exactly that the run
      is cut off after some bytes of the marker. */
  datatype Trouble = AnyTime | Never | InsideMarker(written: nat)

  function Cut(text: Bytes, n: nat): Bytes {
    text[..if n <= |text| then n else |text|]
  }

  /** Writes the marker of a restore in progress; unlike the other files it is written in place, so that a
      failure or a crash can leave part of it. */
  method WriteRestoreMarker(disk: Disk, env: Platform, data: Path, marker: Bytes, trouble: Trouble)
    returns (s: Status, ghost text: Bytes, ghost landed: seq<Change>)
    requires Home(data, disk.nodes) && Lawful(env) && PathOf(env, data, PendingFile) !in disk.nodes
    modifies disk
    ensures Home(data, disk.nodes) && ChangedBy(env, data, old(disk.nodes), disk.nodes, landed)
    ensures landed == [Put(PendingFile, text)] || (landed == [] && !s.Done?)
    ensures text <= marker && (s.Done? ==> text == marker)
    ensures trouble.Never? ==> s.Done?
    ensures trouble.InsideMarker? ==> s.Crashed? && landed != [] && text == Cut(marker, trouble.written)
  {
    hide ChangedBy, WellFormed;
    ghost var before := disk.nodes;
    NothingChanged(env, data, before);
    s := Interruption(!trouble.AnyTime?);
    if !s.Done? {
      return s, marker, [];
    }
    var written: nat :| written <= |marker|
                        && (trouble.Never? ==> written == |marker|)
                        && (trouble.InsideMarker? ==> marker[..written] == Cut(marker, trouble.written));
    MarkerIsAPut(env, data, before, marker[..written]);
    disk.nodes := disk.nodes[PathOf(env, data, PendingFile) := File(marker[..written])];
    s := Interruption(!trouble.AnyTime?);
    if trouble.InsideMarker? {
      s := Crashed;
    } else if s.Done? && written < |marker| {
      s := Failed;
    }
    text, landed := marker[..written], [Put(PendingFile, marker[..written])];
    HomeStays(env, data, before, disk.nodes, landed);
  }

  lemma MarkerIsAPut(env: Platform, data: Path, before: Nodes, text: Bytes)
    requires Home(data, before) && Lawful(env) && PathOf(env, data, PendingFile) !in before
    ensures var after := before[PathOf(env, data, PendingFile) := File(text)];
            ChangedBy(env, data, before, after, [Put(PendingFile, text)]) && WellFormed(after)
  {
    hide WellFormed, Lawful, ChangedBy;
    var path := PathOf(env, data, PendingFile);
    var after := before[path := File(text)];
    assert Parent(path) == data;
    forall p | p != path ensures PreparedAt(before, after, data, p) {
      assert SameAt(before, after, p);
    }
    NotADirectory(before, path);
    WroteIsAPut(env, data, before, after, PendingFile, text);
    AddFile(before, path, text);
  }

  lemma NotADirectory(nodes: Nodes, path: Path)
    requires path !in nodes
    ensures !IsDir(nodes, path)
  {
  }
}
