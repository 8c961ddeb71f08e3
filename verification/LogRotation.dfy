/** Rotation of a node's log files, in place in its directory: the current
    file becomes `.1`, `.1` becomes `.2`, and so on up to a limit. */
module LogRotation {
  import opened Common

  /** The content of one log file. */
  type File = string

  type Directory = map<nat, File>  // rotated files by their suffix

  function At(files: Directory, k: nat): Option<File> {
    if k in files then Some(files[k]) else None
  }

  /** What suffix `k` holds while the files from `gap` up to the limit have
      moved up one place: the place at `gap` is empty and the last file gone. */
  function MovedUp(before: Directory, gap: nat, limit: nat, k: nat): Option<File> {
    if k == gap then None else if gap < k <= limit then At(before, k - 1) else At(before, k)
  }

  /** The directory once `current` has been rotated in. */
  ghost predicate Shifted(before: Directory, current: Option<File>, limit: nat, after: Directory) {
    forall k: nat :: At(after, k) == if k == 1 then current else MovedUp(before, 1, limit, k)
  }

  class LogFiles {
    var current: Option<File>
    var rotated: Directory

    constructor ()
      ensures current == None && rotated == map[]
    {
      current, rotated := None, map[];
    }

    method Rename(i: nat)
      modifies this`rotated
      ensures At(rotated, i) == None
      ensures At(rotated, i + 1) == At(old(rotated), if i in old(rotated) then i else i + 1)
      ensures forall k: nat :: k != i && k != i + 1 ==> At(rotated, k) == At(old(rotated), k)
    {
      if i in rotated {
        rotated := rotated[i + 1 := rotated[i]] - {i};
      }
    }

    /** A configured limit is at least 1. With 0 the file `.0` goes, nothing is shifted and the current
        file still becomes `.1`, over whatever was there. */
    method RotateLogFiles(limit: nat)
      modifies this
      ensures current == None
      ensures limit >= 1 ==> Shifted(old(rotated), old(current), limit, rotated)
      ensures limit == 0 && old(current).Some? ==> rotated == (old(rotated) - {0})[1 := old(current).value]
      ensures limit == 0 && old(current).None? ==> rotated == old(rotated) - {0}
    {
      rotated := rotated - {limit};
      var i := limit - 1;
      while i >= 1
        invariant limit == 0 ==> i == -1 && rotated == old(rotated) - {0}
        invariant limit >= 1 ==> 0 <= i < limit
        invariant current == old(current)
        invariant forall k: nat :: limit >= 1 ==> At(rotated, k) == MovedUp(old(rotated), i + 1, limit, k)
      {
        assert At(rotated, i) == At(old(rotated), i) && At(rotated, i + 1) == None;
        Rename(i);
        i := i - 1;
      }
      if current.Some? {
        ghost var moved := rotated;
        rotated := rotated[1 := current.value];
        assert forall k: nat :: k != 1 ==> At(rotated, k) == At(moved, k);
        current := None;
      }
    }
  }

  /** The directory after each of a series of rotations. */
  ghost predicate Rotations(directories: seq<Directory>, files: seq<Option<File>>, limit: nat) {
    && |directories| == |files| + 1
    && forall n :: 0 <= n < |files| ==> Shifted(directories[n], files[n], limit, directories[n + 1])
  }

  /** After `n` rotations suffix `k` holds the k-th most recently rotated file,
      or what suffix `k - n` held at the start; beyond the limit nothing was
      ever touched. */
  lemma {:induction false} SlotsAreTheMostRecent(directories: seq<Directory>, files: seq<Option<File>>, limit: nat, n: nat, k: nat)
    requires limit >= 1 && Rotations(directories, files, limit) && n <= |files|
    ensures At(directories[n], k) ==
      if !(1 <= k <= limit) then At(directories[0], k)
      else if k <= n then files[n - k]
      else At(directories[0], k - n)
    decreases n
  {
    if n > 0 {
      SlotsAreTheMostRecent(directories, files, limit, n - 1, if 1 < k <= limit then k - 1 else k);
      assert Shifted(directories[n - 1], files[n - 1], limit, directories[n]);
    }
  }
}
