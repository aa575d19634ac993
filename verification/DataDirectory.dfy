/** The file system a backup and a restore work on: a tree of directories and files held as a map from
    absolute paths, with operations that may fail, or be cut off by a crash, at every step. */
module DataDirectory {
  import opened Wrappers

  newtype byte = n: int | 0 <= n < 256
  type Bytes = seq<byte>
  type Path = seq<string>

  datatype Node = Dir | File(content: Bytes)

  type Nodes = map<Path, Node>

  /** How an operation ended: done, refused with an error, or cut off by a crash. */
  datatype Status = Done | Failed | Crashed

  /** Every entry is in a directory. */
  ghost predicate WellFormed(nodes: Nodes) {
    forall p | p in nodes && p != [] :: p[..|p| - 1] in nodes && nodes[p[..|p| - 1]] == Dir
  }

  function FileAt(nodes: Nodes, p: Path): Option<Bytes> {
    if p in nodes && nodes[p].File? then Some(nodes[p].content) else None
  }

  /** `p` is `dir` or below it. */
  predicate Within(p: Path, dir: Path) {
    dir <= p
  }

  predicate Apart(a: Path, b: Path) {
    !Within(a, b) && !Within(b, a)
  }

  ghost predicate SameAt(before: Nodes, after: Nodes, p: Path) {
    (p in after <==> p in before) && (p in before ==> after[p] == before[p])
  }

  /** Everything outside `dir` is as it was. */
  ghost predicate SameOutside(before: Nodes, after: Nodes, dir: Path) {
    forall p :: !Within(p, dir) ==> SameAt(before, after, p)
  }

  /** Everything at or below `dir` is as it was. */
  ghost predicate SameWithin(before: Nodes, after: Nodes, dir: Path) {
    forall p :: Within(p, dir) ==> SameAt(before, after, p)
  }

  /** Two prefixes of one path are prefixes of each other, one way or the other. */
  lemma Comparable(a: Path, b: Path, p: Path)
    ensures Within(p, a) && Within(p, b) ==> Within(a, b) || Within(b, a)
  {
    if Within(p, a) && Within(p, b) {
      assert a == p[..|a|] && b == p[..|b|];
      if |a| <= |b| {
        assert b[..|a|] == a;
      } else {
        assert a[..|b|] == b;
      }
    }
  }

  lemma {:induction false} AncestorsExist(nodes: Nodes, p: Path, k: nat)
    requires WellFormed(nodes) && p in nodes && k <= |p|
    ensures p[..k] in nodes && (k < |p| ==> nodes[p[..k]] == Dir)
    decreases |p|
  {
    if k == |p| {
      assert p[..k] == p;
    } else {
      AncestorsExist(nodes, p[..|p| - 1], k);
      assert p[..|p| - 1][..k] == p[..k];
    }
  }

  lemma NothingBelowAbsent(nodes: Nodes, dir: Path, p: Path)
    requires WellFormed(nodes) && dir !in nodes && Within(p, dir)
    ensures p !in nodes
  {
    assert p[..|dir|] == dir;
    if p in nodes {
      AncestorsExist(nodes, p, |dir|);
    }
  }

  // ----- The recursive copy with exclusions -----

  /** The runtime lock, and the backups directory with everything in it. The comparison is on the full
      path, so the same names deeper down are not excluded. */
  predicate Excluded(p: Path, lock: Path, backups: Path) {
    Within(p, lock) || Within(p, backups)
  }

  /** The path below `source` that corresponds to `q` below `destination`. */
  function Origin(q: Path, source: Path, destination: Path): Path
    requires Within(q, destination)
  {
    source + q[|destination|..]
  }

  /** What one path of a copy should hold, given which paths are to be copied. */
  ghost predicate CopiedAt(before: Nodes, after: Nodes, source: Path, destination: Path, q: Path, wanted: bool)
    requires Within(q, destination)
  {
    var p := Origin(q, source, destination);
    (q in after <==> p in before && wanted) && (q in after && p in before ==> after[q] == before[p])
  }

  /** At and below `destination` there is exactly the source tree without the excluded paths. */
  ghost predicate IsCopy(before: Nodes, after: Nodes, source: Path, destination: Path, lock: Path, backups: Path) {
    forall q | Within(q, destination) ::
      CopiedAt(before, after, source, destination, q, !Excluded(Origin(q, source, destination), lock, backups))
  }

  /** The names in one directory. */
  function Names(nodes: Nodes, dir: Path): set<string> {
    set p | p in nodes && |p| == |dir| + 1 && dir <= p :: p[|dir|]
  }

  lemma NameIsEntry(nodes: Nodes, dir: Path, name: string)
    ensures name in Names(nodes, dir) <==> dir + [name] in nodes
  {
    if name in Names(nodes, dir) {
      var p :| p in nodes && |p| == |dir| + 1 && dir <= p && p[|dir|] == name;
      assert p == dir + [name];
    }
    if dir + [name] in nodes {
      assert (dir + [name])[|dir|] == name;
    }
  }

  /** The paths below a directory: what the recursion still has to visit. */
  function Descendants(nodes: Nodes, dir: Path): set<Path> {
    set p | p in nodes && dir < p
  }

  /** The copy while the entries `left` of the directory have not been visited. */
  ghost predicate CopiedSoFar(before: Nodes, after: Nodes, source: Path, destination: Path, lock: Path, backups: Path,
                              left: set<string>)
  {
    forall q | Within(q, destination) ::
      CopiedAt(before, after, source, destination, q,
               (q == destination || q[|destination|] !in left)
               && !Excluded(Origin(q, source, destination), lock, backups))
  }

  lemma NoUnlistedOrigin(nodes: Nodes, q: Path, source: Path, destination: Path)
    requires WellFormed(nodes) && Within(q, destination) && q != destination
    ensures Origin(q, source, destination) in nodes ==> q[|destination|] in Names(nodes, source)
  {
    var entry := source + [q[|destination|]];
    NameIsEntry(nodes, source, q[|destination|]);
    if entry !in nodes {
      NothingBelowAbsent(nodes, entry, Origin(q, source, destination));
    }
  }

  lemma NothingCopiedYet(before: Nodes, source: Path, destination: Path, lock: Path, backups: Path)
    requires WellFormed(before) && !Excluded(source, lock, backups)
    requires source in before && destination in before && before[source] == before[destination]
    requires forall p | p in before && Within(p, destination) :: p == destination
    ensures CopiedSoFar(before, before, source, destination, lock, backups, Names(before, source))
  {
    forall q | Within(q, destination)
      ensures CopiedAt(before, before, source, destination, q,
                       (q == destination || q[|destination|] !in Names(before, source))
                       && !Excluded(Origin(q, source, destination), lock, backups))
    {
      if q == destination {
        assert Origin(q, source, destination) == source;
      } else {
        assert q !in before;
        NoUnlistedOrigin(before, q, source, destination);
      }
    }
  }

  lemma AllVisited(before: Nodes, after: Nodes, source: Path, destination: Path, lock: Path, backups: Path)
    requires CopiedSoFar(before, after, source, destination, lock, backups, {})
    ensures IsCopy(before, after, source, destination, lock, backups)
  {
  }

  /** An entry not yet visited has no copy yet. */
  lemma EntryNotCopied(before: Nodes, mid: Nodes, source: Path, destination: Path, lock: Path, backups: Path,
                       left: set<string>, name: string)
    requires CopiedSoFar(before, mid, source, destination, lock, backups, left) && name in left
    ensures forall q | Within(q, destination + [name]) :: q !in mid
  {
    forall q | Within(q, destination + [name]) ensures q !in mid {
      assert q[|destination|] == (destination + [name])[|destination|] == name;
      assert Within(q, destination);
    }
  }

  /** Visiting one entry: everything outside its copy stays, its copy is right. */
  lemma VisitEntry(before: Nodes, mid: Nodes, after: Nodes, source: Path, destination: Path, lock: Path, backups: Path,
                   left: set<string>, name: string)
    requires CopiedSoFar(before, mid, source, destination, lock, backups, left) && name in left
    requires SameOutside(mid, after, destination + [name])
    requires IsCopy(before, after, source + [name], destination + [name], lock, backups)
    ensures CopiedSoFar(before, after, source, destination, lock, backups, left - {name})
  {
    var to := destination + [name];
    forall q | Within(q, destination)
      ensures CopiedAt(before, after, source, destination, q,
                       (q == destination || q[|destination|] !in left - {name})
                       && !Excluded(Origin(q, source, destination), lock, backups))
    {
      if q != destination && q[|destination|] == name {
        assert Within(q, to);
        assert Origin(q, source + [name], to) == Origin(q, source, destination);
      } else {
        assert to[|destination|] == name;
        assert !Within(q, to);
        assert SameAt(mid, after, q);
      }
    }
  }

  /** A copy of a tree is a copy of any state in which that tree is the same. */
  lemma CopyOfSameTree(before: Nodes, mid: Nodes, after: Nodes, from: Path, to: Path, lock: Path, backups: Path)
    requires IsCopy(mid, after, from, to, lock, backups) && SameWithin(before, mid, from)
    ensures IsCopy(before, after, from, to, lock, backups)
  {
    forall q | Within(q, to)
      ensures CopiedAt(before, after, from, to, q, !Excluded(Origin(q, from, to), lock, backups))
    {
      assert Within(Origin(q, from, to), from);
      assert SameAt(before, mid, Origin(q, from, to));
    }
  }

  /** What lies outside the destination includes the source, and every entry of it. */
  lemma SourceIsOutside(before: Nodes, mid: Nodes, source: Path, destination: Path, name: string)
    requires Apart(source, destination) && SameOutside(before, mid, destination)
    ensures Apart(source + [name], destination + [name]) && !Within(source + [name], destination)
    ensures SameWithin(before, mid, source + [name])
  {
    Comparable(source, destination, source + [name]);
    Comparable(source, destination, destination + [name]);
    forall p | Within(p, source + [name]) ensures !Within(p, destination) {
      Comparable(source, destination, p);
    }
  }

  lemma ProperPrefix(source: Path, name: string, x: Path)
    ensures Within(source + [name], x) && x != source + [name] ==> Within(source, x)
  {
    if Within(source + [name], x) && x != source + [name] {
      assert x == (source + [name])[..|x|] == source[..|x|];
    }
  }

  lemma EntryNotExcluded(source: Path, name: string, lock: Path, backups: Path)
    requires !Excluded(source, lock, backups) && source + [name] != lock && source + [name] != backups
    ensures !Excluded(source + [name], lock, backups)
  {
    ProperPrefix(source, name, lock);
    ProperPrefix(source, name, backups);
  }

  lemma FewerDescendants(before: Nodes, now: Nodes, source: Path, name: string)
    requires source + [name] in before && SameWithin(before, now, source + [name])
    ensures Descendants(now, source + [name]) < Descendants(before, source)
  {
    var from := source + [name];
    assert from in Descendants(before, source) && from !in Descendants(now, from);
    forall p | p in Descendants(now, from) ensures p in Descendants(before, source) {
      assert Within(p, from) && SameAt(before, now, p);
    }
  }

  /** A new entry in a directory keeps the tree a tree. */
  lemma AddEntry(nodes: Nodes, dir: Path, name: string, node: Node)
    requires WellFormed(nodes) && dir in nodes && nodes[dir] == Dir && dir + [name] !in nodes
    ensures WellFormed(nodes[dir + [name] := node])
  {
    var after := nodes[dir + [name] := node];
    forall p | p in after && p != [] ensures p[..|p| - 1] in after && after[p[..|p| - 1]] == Dir {
      if p == dir + [name] {
        assert p[..|p| - 1] == dir;
      }
    }
  }

  /** The copy of a single file, with nothing below it. */
  lemma FileCopied(before: Nodes, after: Nodes, from: Path, to: Path, lock: Path, backups: Path)
    requires WellFormed(before) && from in before && before[from].File? && !Excluded(from, lock, backups)
    requires to in after && after[to] == before[from]
    requires forall q | q in after && Within(q, to) :: q == to
    ensures IsCopy(before, after, from, to, lock, backups)
  {
    forall q | Within(q, to)
      ensures CopiedAt(before, after, from, to, q, !Excluded(Origin(q, from, to), lock, backups))
    {
      var p := Origin(q, from, to);
      assert p[..|from|] == from && |p| - |from| == |q| - |to|;
      if p in before {
        AncestorsExist(before, p, |from|);
      }
      assert |q| == |to| ==> q == to && p == from;
    }
  }

  lemma EntryReady(before: Nodes, mid: Nodes, source: Path, destination: Path, lock: Path, backups: Path,
                   left: set<string>, name: string)
    requires WellFormed(before) && Apart(source, destination) && !Excluded(source, lock, backups)
    requires source in before && before[source] == Dir
    requires source + [name] in before && name in left && SameOutside(before, mid, destination)
    requires CopiedSoFar(before, mid, source, destination, lock, backups, left)
    ensures destination in mid && mid[destination] == Dir
    ensures source + [name] in mid && mid[source + [name]] == before[source + [name]]
    ensures forall q | Within(q, destination + [name]) :: q !in mid
    ensures Apart(source + [name], destination + [name])
  {
    assert CopiedAt(before, mid, source, destination, destination, !Excluded(source, lock, backups)) by {
      assert Origin(destination, source, destination) == source;
    }
    assert Origin(destination, source, destination) == source;
    EntryNotCopied(before, mid, source, destination, lock, backups, left, name);
    SourceIsOutside(before, mid, source, destination, name);
    assert SameAt(before, mid, source + [name]);
  }

  lemma DirectoryReady(before: Nodes, mid: Nodes, source: Path, destination: Path, name: string)
    requires WellFormed(mid) && Apart(source, destination) && SameOutside(before, mid, destination)
    requires destination in mid && mid[destination] == Dir && source + [name] in before
    requires forall q | Within(q, destination + [name]) :: q !in mid
    ensures var now := mid[destination + [name] := Dir];
            && WellFormed(now) && SameWithin(before, now, source + [name]) && SameWithin(mid, now, source + [name])
            && Apart(source + [name], destination + [name])
            && Descendants(now, source + [name]) < Descendants(before, source)
            && (forall q | q in now && Within(q, destination + [name]) :: q == destination + [name])
  {
    var now := mid[destination + [name] := Dir];
    AddEntry(mid, destination, name, Dir);
    SourceIsOutside(before, mid, source, destination, name);
    Comparable(source + [name], destination + [name], destination + [name]);
    assert SameWithin(before, now, source + [name]) by {
      forall p | Within(p, source + [name]) ensures SameAt(before, now, p) {
        assert SameAt(before, mid, p);
      }
    }
    FewerDescendants(before, now, source, name);
  }

  /** What does not change outside a directory once it has been added did not change before either. */
  lemma SameAfterAdding(before: Nodes, after: Nodes, dir: Path)
    ensures SameOutside(before[dir := Dir], after, dir) ==> SameOutside(before, after, dir)
    ensures after == before || after == before[dir := Dir] ==> SameOutside(before, after, dir)
  {
    forall p | SameOutside(before[dir := Dir], after, dir) && !Within(p, dir) ensures SameAt(before, after, p) {
      assert SameAt(before[dir := Dir], after, p);
    }
  }

  lemma SkippedEntry(before: Nodes, mid: Nodes, source: Path, destination: Path, lock: Path, backups: Path,
                     left: set<string>, name: string)
    requires CopiedSoFar(before, mid, source, destination, lock, backups, left) && name in left
    requires source + [name] == lock || source + [name] == backups
    requires forall q | Within(q, destination + [name]) :: q !in mid
    ensures CopiedSoFar(before, mid, source, destination, lock, backups, left - {name})
  {
    var from, to := source + [name], destination + [name];
    forall q | Within(q, to)
      ensures CopiedAt(before, mid, from, to, q, !Excluded(Origin(q, from, to), lock, backups))
    {
      assert Within(Origin(q, from, to), from);
    }
    VisitEntry(before, mid, mid, source, destination, lock, backups, left, name);
  }

  lemma StillOutside(before: Nodes, mid: Nodes, after: Nodes, destination: Path, name: string)
    requires SameOutside(before, mid, destination)
    requires SameOutside(mid, after, destination + [name])
    ensures SameOutside(before, after, destination)
  {
    forall p | !Within(p, destination) ensures SameAt(before, after, p) {
      assert !Within(p, destination + [name]);
      assert SameAt(before, mid, p) && SameAt(mid, after, p);
    }
  }

  /** What the exclusion means for the two names directly in the data directory: it is the first name
      below the data directory that decides, so the same names deeper down are copied. */
  lemma OnlyTheFirstNameExcludes(data: Path, lock: string, backups: string, p: Path)
    requires Within(p, data)
    ensures Excluded(p, data + [lock], data + [backups]) <==> |p| > |data| && p[|data|] in {lock, backups}
  {
    if |p| > |data| {
      assert p[..|data| + 1] == data + [p[|data|]];
      assert (data + [lock])[|data|] == lock && (data + [backups])[|data|] == backups;
    }
  }

  /** A copy can be copied back: each path of the source that is not excluded is found in it, the same. */
  lemma CopyHoldsEveryFile(before: Nodes, now: Nodes, source: Path, destination: Path, lock: Path, backups: Path,
                           p: Path)
    requires IsCopy(before, now, source, destination, lock, backups)
    requires Within(p, source) && !Excluded(p, lock, backups)
    ensures var q := destination + p[|source|..];
            (q in now <==> p in before) && (p in before ==> now[q] == before[p])
  {
    var q := destination + p[|source|..];
    assert Within(q, destination) && Origin(q, source, destination) == p;
    assert CopiedAt(before, now, source, destination, q, true);
  }

  /** Whether the next step goes through, fails, or is cut off; nothing goes wrong in a calm run. */
  method Interruption(calm: bool) returns (s: Status)
    ensures calm ==> s.Done?
  {
    var fails, crashes := *, *;
    return if calm || !(fails || crashes) then Done else if fails then Failed else Crashed;
  }

  class Disk {
    var nodes: Nodes

    /** Copies one file, checks the copied length, and synchronizes. The copy may stop short. */
    method CopySnapshotFile(source: Path, destination: Path, calm: bool) returns (s: Status)
      requires WellFormed(nodes) && source in nodes && nodes[source].File? && destination !in nodes
      requires destination != [] && destination[..|destination| - 1] in nodes
      requires nodes[destination[..|destination| - 1]] == Dir
      modifies this
      ensures WellFormed(nodes) && SameOutside(old(nodes), nodes, destination)
      ensures s.Done? ==> nodes == old(nodes)[destination := old(nodes)[source]]
      ensures calm ==> s.Done?
    {
      hide WellFormed;
      ghost var parent, name := destination[..|destination| - 1], destination[|destination| - 1];
      assert parent + [name] == destination;
      var content := nodes[source].content;
      var expected := |content|;
      s := Interruption(calm);
      if !s.Done? {
        return;
      }
      var copied :| 0 <= copied <= expected && (calm ==> copied == expected);
      AddEntry(nodes, parent, name, File(content[..copied]));
      nodes := nodes[destination := File(content[..copied])];
      s := Interruption(calm);
      if s.Done? && copied != expected {
        s := Failed;
      }
      assert copied == expected ==> content[..copied] == content;
    }

    /** Copies every entry of one directory into a destination that is elsewhere and empty, recursing
        into subdirectories and skipping the excluded paths. */
    method CopyDataDirectory(source: Path, destination: Path, lock: Path, backups: Path, calm: bool)
      returns (s: Status)
      requires WellFormed(nodes) && Apart(source, destination) && !Excluded(source, lock, backups)
      requires source in nodes && nodes[source] == Dir && destination in nodes && nodes[destination] == Dir
      requires forall p | p in nodes && Within(p, destination) :: p == destination
      modifies this
      ensures WellFormed(nodes) && SameOutside(old(nodes), nodes, destination)
      ensures s.Done? ==> IsCopy(old(nodes), nodes, source, destination, lock, backups)
      ensures calm ==> s.Done?
      decreases Descendants(nodes, source), 1
    {
      ghost var before := nodes;
      s := Interruption(calm);
      if !s.Done? {
        return;
      }
      var left := Names(nodes, source);
      NothingCopiedYet(before, source, destination, lock, backups);
      while left != {}
        invariant left <= Names(before, source) && WellFormed(nodes)
        invariant SameOutside(before, nodes, destination)
        invariant CopiedSoFar(before, nodes, source, destination, lock, backups, left) && s.Done?
        decreases left
      {
        var name :| name in left;
        NameIsEntry(before, source, name);
        s := CopyEntry(before, source, destination, lock, backups, left, name, calm);
        if !s.Done? {
          return;
        }
        left := left - {name};
      }
      AllVisited(before, nodes, source, destination, lock, backups);
    }

    /** Copies one entry: skips it, copies a file, or creates a directory and recurses. */
    method CopyEntry(ghost before: Nodes, source: Path, destination: Path, lock: Path, backups: Path,
                     ghost left: set<string>, name: string, calm: bool)
      returns (s: Status)
      requires WellFormed(before) && WellFormed(nodes) && Apart(source, destination) && !Excluded(source, lock, backups)
      requires source in before && before[source] == Dir
      requires source + [name] in before && name in left && SameOutside(before, nodes, destination)
      requires CopiedSoFar(before, nodes, source, destination, lock, backups, left)
      modifies this
      ensures WellFormed(nodes) && SameOutside(before, nodes, destination)
      ensures s.Done? ==> CopiedSoFar(before, nodes, source, destination, lock, backups, left - {name})
      ensures calm ==> s.Done?
      decreases Descendants(before, source), 0, 1
    {
      var from, to := source + [name], destination + [name];
      ghost var mid := nodes;
      EntryReady(before, mid, source, destination, lock, backups, left, name);
      if from == lock || from == backups {
        SkippedEntry(before, mid, source, destination, lock, backups, left, name);
        return Done;
      }
      EntryNotExcluded(source, name, lock, backups);
      if nodes[from].Dir? {
        s := CopySubdirectory(before, source, destination, lock, backups, name, calm);
      } else {
        assert to[..|to| - 1] == destination;
        s := CopySnapshotFile(from, to, calm);
        if s.Done? {
          FileCopied(mid, nodes, from, to, lock, backups);
        }
      }
      StillOutside(before, mid, nodes, destination, name);
      if s.Done? {
        SourceIsOutside(before, mid, source, destination, name);
        CopyOfSameTree(before, mid, nodes, from, to, lock, backups);
        VisitEntry(before, mid, nodes, source, destination, lock, backups, left, name);
      }
    }

    /** Creates the copy of a subdirectory and copies what is in it. */
    method CopySubdirectory(ghost before: Nodes, source: Path, destination: Path, lock: Path, backups: Path,
                            name: string, calm: bool)
      returns (s: Status)
      requires WellFormed(nodes) && Apart(source, destination) && SameOutside(before, nodes, destination)
      requires destination in nodes && nodes[destination] == Dir
      requires source + [name] in before && source + [name] in nodes && nodes[source + [name]] == Dir
      requires forall q | Within(q, destination + [name]) :: q !in nodes
      requires !Excluded(source + [name], lock, backups)
      modifies this
      ensures WellFormed(nodes) && SameOutside(old(nodes), nodes, destination + [name])
      ensures s.Done? ==> IsCopy(old(nodes), nodes, source + [name], destination + [name], lock, backups)
      ensures calm ==> s.Done?
      decreases Descendants(before, source), 0, 0
    {
      hide SameOutside, SameWithin, IsCopy, WellFormed, Excluded, Descendants, Apart;
      var from, to := source + [name], destination + [name];
      ghost var mid := nodes;
      DirectoryReady(before, mid, source, destination, name);
      SameAfterAdding(mid, mid, to);
      s := Interruption(calm);
      if !s.Done? {
        return;
      }
      nodes := nodes[to := Dir];
      SameAfterAdding(mid, nodes, to);
      s := Interruption(calm);
      if !s.Done? {
        return;
      }
      s := CopyDataDirectory(from, to, lock, backups, calm);
      SameAfterAdding(mid, nodes, to);
      if s.Done? {
        CopyOfSameTree(mid, mid[to := Dir], nodes, from, to, lock, backups);
      }
    }
  }
}
