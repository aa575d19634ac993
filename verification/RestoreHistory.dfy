/** Restores tried again and again on one data directory, each failing or cut off anywhere: what becomes of
    the state before the first of them. */
module RestoreHistory {
  import opened Wrappers

  import opened DataDirectory
  import opened BackupPackage
  import opened RestoreSteps
  import opened BackupRestore

  datatype Attempt = Attempt(running: bool, unlock: Envelope, package: Path, suffix: string, trouble: Trouble)

  function AdmissionOf(env: Platform, data: Path, t: Attempt, before: Nodes): Outcome<Admitted> {
    Admission(env, before, data, t.running, t.unlock, FileAt(before, t.package))
  }

  /** What one attempt can make of a state, whatever its end. */
  ghost predicate Leaves(env: Platform, data: Path, t: Attempt, before: Nodes, now: Nodes) {
    && NeverTheOnlyCopy(env, data, t.suffix, before, now, AdmissionOf(env, data, t, before))
    && SameElsewhere(before, now, data, SnapshotPath(data, t.suffix))
    && LeftOutIsUntouched(before, now, data)
    && (data == [] || SnapshotPath(data, t.suffix) in before ==> now == before)
  }

  /** The attempt restored and verified everything. */
  ghost predicate Completes(env: Platform, data: Path, t: Attempt, before: Nodes, now: Nodes) {
    AdmissionOf(env, data, t, before).Ok? && Complete(env, data, before, now, AdmissionOf(env, data, t, before).value)
  }

  /** The states between the attempts. */
  ghost predicate IsHistory(env: Platform, data: Path, attempts: seq<Attempt>, states: seq<Nodes>) {
    && |states| == |attempts| + 1
    && forall i | 0 <= i < |attempts| :: Leaves(env, data, attempts[i], states[i], states[i + 1])
  }

  /** Runs the attempts one after the other. Every run is one of the histories. */
  method RestoreRepeatedly(disk: Disk, env: Platform, data: Path, attempts: seq<Attempt>)
    returns (results: seq<Outcome<RestoreOutcome>>, ghost states: seq<Nodes>)
    requires WellFormed(disk.nodes) && Lawful(env)
    modifies disk
    ensures WellFormed(disk.nodes) && |results| == |attempts|
    ensures IsHistory(env, data, attempts, states) && states[0] == old(disk.nodes) && states[|attempts|] == disk.nodes
    ensures forall i | 0 <= i < |attempts| && results[i].Ok? ::
              Completes(env, data, attempts[i], states[i], states[i + 1])
  {
    hide WellFormed, Lawful, Admission, NeverTheOnlyCopy, FilesAreWhole, Admissible, SameElsewhere, Restored, Complete;
    hide ErrorTellsWhatIsLeft, SnapshotPath, LeftOutIsUntouched;
    results, states := [], [disk.nodes];
    for i := 0 to |attempts|
      invariant WellFormed(disk.nodes) && |results| == i
      invariant |states| == i + 1 && states[0] == old(disk.nodes) && states[i] == disk.nodes
      invariant forall k | 0 <= k < i :: Leaves(env, data, attempts[k], states[k], states[k + 1])
      invariant forall k | 0 <= k < i && results[k].Ok? :: Completes(env, data, attempts[k], states[k], states[k + 1])
    {
      var t := attempts[i];
      ghost var before := disk.nodes;
      var r := RestoreBackup(disk, env, data, t.running, t.unlock, t.package, t.suffix, t.trouble);
      assert Leaves(env, data, t, before, disk.nodes);
      results, states := results + [r], states + [disk.nodes];
    }
  }

  /** A complete copy of the first state, in the snapshot directory of one of the attempts. */
  ghost predicate CopiedBy(first: Nodes, now: Nodes, data: Path, t: Attempt) {
    var copy := SnapshotPath(data, t.suffix);
    data != [] && copy != data && IsCopy(first, now, data, copy, LockPath(data), BackupsPath(data))
  }

  /** The data directory is as it was at first, or one of the attempts has left a complete copy of that. */
  ghost predicate Survives(first: Nodes, now: Nodes, data: Path, attempts: seq<Attempt>) {
    SameWithin(first, now, data) || exists t <- attempts :: CopiedBy(first, now, data, t)
  }

  /** Each file of the first state is where it was, or at the same relative path in one of the copies. */
  ghost predicate EachFileSurvives(first: Nodes, now: Nodes, data: Path, attempts: seq<Attempt>) {
    forall p | Within(p, data) && FileAt(first, p).Some? ::
      || FileAt(now, p) == FileAt(first, p)
      || exists t <- attempts :: FileAt(now, SnapshotPath(data, t.suffix) + p[|data|..]) == FileAt(first, p)
  }

  /** No attempt of any history touches what the copies leave out. */
  lemma {:induction false} LeftOutThroughout(env: Platform, data: Path, attempts: seq<Attempt>, states: seq<Nodes>)
    requires IsHistory(env, data, attempts, states)
    ensures LeftOutIsUntouched(states[0], states[|attempts|], data)
    decreases |attempts|
  {
    hide NeverTheOnlyCopy, SameElsewhere, SnapshotPath;
    if attempts != [] {
      var n := |attempts| - 1;
      LeftOutThroughout(env, data, attempts[..n], states[..n + 1]);
      assert Leaves(env, data, attempts[n], states[n], states[n + 1]);
    }
  }

  lemma SurvivesFileByFile(first: Nodes, now: Nodes, data: Path, attempts: seq<Attempt>)
    requires Survives(first, now, data, attempts) && LeftOutIsUntouched(first, now, data)
    ensures EachFileSurvives(first, now, data, attempts)
  {
    hide SnapshotPath;
    if SameWithin(first, now, data) {
      forall p | Within(p, data) ensures FileAt(now, p) == FileAt(first, p) {
        assert SameAt(first, now, p);
      }
    } else {
      var t :| t in attempts && CopiedBy(first, now, data, t);
      NoFileIsLost(first, now, data, SnapshotPath(data, t.suffix));
      forall p | Within(p, data) ensures FileSurvives(first, now, data, SnapshotPath(data, t.suffix), p) {
      }
    }
  }

  lemma SnapshotsAreSiblings(data: Path, s: string, other: string)
    requires data != [] && SnapshotPath(data, s) != data
    ensures Apart(data, SnapshotPath(data, s))
    ensures SnapshotPath(data, s) != SnapshotPath(data, other) ==>
              Apart(SnapshotPath(data, s), SnapshotPath(data, other))
  {
    var a, b := SnapshotPath(data, s), SnapshotPath(data, other);
    assert |a| == |data| == |b|;
  }

  /** An attempt on the first state leaves it, or copies it. */
  lemma FirstIsKept(env: Platform, data: Path, t: Attempt, first: Nodes, mid: Nodes, now: Nodes)
    requires IsDir(first, data) && SameWithin(first, mid, data)
    requires Leaves(env, data, t, mid, now) && !Completes(env, data, t, mid, now)
    ensures SameWithin(first, now, data) || CopiedBy(first, now, data, t)
  {
    hide Complete, Admission, SnapshotPath;
    var copy := SnapshotPath(data, t.suffix);
    assert SameAt(first, mid, data);
    if now == mid {
    } else if SameWithin(mid, now, data) {
      forall p | Within(p, data) ensures SameAt(first, now, p) {
        assert SameAt(first, mid, p) && SameAt(mid, now, p);
      }
    } else {
      CopyOfSameTree(first, mid, now, data, copy, LockPath(data), BackupsPath(data));
    }
  }

  lemma CopyIsThere(first: Nodes, now: Nodes, data: Path, copy: Path)
    requires IsDir(first, data) && IsCopy(first, now, data, copy, LockPath(data), BackupsPath(data))
    ensures copy in now
  {
    assert Origin(copy, data, copy) == data && Within(copy, copy);
    assert CopiedAt(first, now, data, copy, copy, !Excluded(data, LockPath(data), BackupsPath(data)));
    assert !Excluded(data, LockPath(data), BackupsPath(data));
  }

  /** An attempt leaves a copy that an earlier one made alone. */
  lemma CopyIsKept(env: Platform, data: Path, t: Attempt, maker: Attempt, first: Nodes, mid: Nodes, now: Nodes)
    requires IsDir(first, data) && CopiedBy(first, mid, data, maker) && Leaves(env, data, t, mid, now)
    ensures CopiedBy(first, now, data, maker)
  {
    hide SnapshotPath, NeverTheOnlyCopy;
    var copy, other := SnapshotPath(data, maker.suffix), SnapshotPath(data, t.suffix);
    CopyIsThere(first, mid, data, copy);
    if copy != other {
      SnapshotsAreSiblings(data, maker.suffix, t.suffix);
      forall q | Within(q, copy)
        ensures CopiedAt(first, now, data, copy, q, !Excluded(Origin(q, data, copy), LockPath(data), BackupsPath(data)))
      {
        Comparable(data, copy, q);
        Comparable(other, copy, q);
        assert SameAt(mid, now, q);
        assert CopiedAt(first, mid, data, copy, q, !Excluded(Origin(q, data, copy), LockPath(data), BackupsPath(data)));
      }
    }
  }

  /** Over any sequence of restores, each failing or cut off anywhere, the first state survives, where it was
      or as a complete copy, until one of them has restored and verified everything. */
  lemma {:induction false} FirstStateSurvives(env: Platform, data: Path, attempts: seq<Attempt>, states: seq<Nodes>)
    requires IsHistory(env, data, attempts, states) && IsDir(states[0], data)
    requires forall i | 0 <= i < |attempts| :: !Completes(env, data, attempts[i], states[i], states[i + 1])
    ensures Survives(states[0], states[|attempts|], data, attempts)
    ensures EachFileSurvives(states[0], states[|attempts|], data, attempts)
    decreases |attempts|
  {
    hide Leaves, Completes, CopiedBy, LeftOutIsUntouched, EachFileSurvives;
    LeftOutThroughout(env, data, attempts, states);
    if attempts == [] {
      Unchanged(states[0], data, []);
    } else {
      var front, t := attempts[..|attempts| - 1], attempts[|attempts| - 1];
      var first, mid, now := states[0], states[|attempts| - 1], states[|attempts|];
      FirstStateSurvives(env, data, front, states[..|attempts|]);
      assert attempts == front + [t];
      if SameWithin(first, mid, data) {
        FirstIsKept(env, data, t, first, mid, now);
        assert t in attempts;
      } else {
        var maker :| maker in front && CopiedBy(first, mid, data, maker);
        CopyIsKept(env, data, t, maker, first, mid, now);
        assert maker in attempts;
      }
    }
    SurvivesFileByFile(states[0], states[|attempts|], data, attempts);
  }
}
