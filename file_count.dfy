/**
 * `countFiles`: counts the non-directory entries of a directory walk and
 * aborts the walk as soon as the count exceeds the configured maximum.
 *
 * The walk itself (`filepath.Walk`) is replaced by the sequence of callback
 * invocations it would make, in order. The walk stops at the first
 * invocation whose callback returns an error.
 */
module FileCount {
  import opened Errors

  /** One invocation of the walk callback. */
  datatype Entry =
      /** An entry whose file info says it is a directory. */
    | Dir
      /** Any other entry: regular file, symbolic link, device, ... */
    | File
      /** The walk could not stat or read an entry and hands the callback this error. */
    | WalkErr(err: Error)

  /** Number of non-directory entries. */
  function Files(w: seq<Entry>): nat
  {
    if w == [] then 0 else (if w[0].File? then 1 else 0) + Files(w[1..])
  }

  /** The walk reports no error to the callback. */
  predicate WalkOk(w: seq<Entry>)
  {
    forall i :: 0 <= i < |w| ==> !w[i].WalkErr?
  }

  /** The entries of `w` that are not directories, in order. */
  function NonDirs(w: seq<Entry>): (r: seq<Entry>)
    ensures |r| <= |w|
  {
    if w == [] then [] else (if w[0].Dir? then [] else [w[0]]) + NonDirs(w[1..])
  }

  /**
   * The outcome of a walk: the counter's final value, the error the walk
   * returns, and how many callback invocations took place.
   */
  datatype Counted = Counted(count: int, err: Option<Error>, visited: nat)

  /**
   * The walk over `w`, with the counter starting at `count`; every callback
   * invocation is one step of the recursion.
   */
  function CountFrom(w: seq<Entry>, maxFiles: int, count: int): (r: Counted)
    ensures r.visited <= |w|
    ensures r.err.None? ==> r.visited == |w|
    ensures r.err.Some? ==> 0 < r.visited
    decreases |w|
  {
    if w == [] then Counted(count, None, 0)
    else match w[0]
      case WalkErr(e) => Counted(count, Some(e), 1)
      case Dir =>
        var r := CountFrom(w[1..], maxFiles, count);
        r.(visited := r.visited + 1)
      case File =>
        if count + 1 > maxFiles then Counted(count + 1, Some(TooManyFiles(count + 1, maxFiles)), 1)
        else
          var r := CountFrom(w[1..], maxFiles, count + 1);
          r.(visited := r.visited + 1)
  }

  /** `countFiles` on a walk that makes the callback invocations `walk`. */
  function CountOf(walk: seq<Entry>, maxFiles: int): Counted
  {
    CountFrom(walk, maxFiles, 0)
  }

  /**
   * The walk callback updates the captured counter entry by entry and
   * returns early on a walk error or when the counter passes `maxFiles`.
   */
  method CountFiles(walk: seq<Entry>, maxFiles: int) returns (fileCount: int, err: Option<Error>)
    ensures fileCount == CountOf(walk, maxFiles).count
    ensures err == CountOf(walk, maxFiles).err
  {
    fileCount, err := 0, None;
    var i := 0;
    while i < |walk|
      invariant 0 <= i <= |walk|
      invariant CountFrom(walk[i..], maxFiles, fileCount).count == CountOf(walk, maxFiles).count
      invariant CountFrom(walk[i..], maxFiles, fileCount).err == CountOf(walk, maxFiles).err
    {
      if walk[i].WalkErr? {
        err := Some(walk[i].err);
        return;
      }
      if !walk[i].Dir? {
        fileCount := fileCount + 1;
        if fileCount > maxFiles {
          err := Some(TooManyFiles(fileCount, maxFiles));
          return;
        }
      }
      assert walk[i..][1..] == walk[i + 1..];
      i := i + 1;
    }
  }

  // ---- facts about sequences of entries ----

  lemma {:induction false} FilesAppend(a: seq<Entry>, b: seq<Entry>)
    ensures Files(a + b) == Files(a) + Files(b)
    decreases |a|
  {
    if a != [] {
      assert (a + b)[0] == a[0] && (a + b)[1..] == a[1..] + b;
      FilesAppend(a[1..], b);
    } else {
      assert a + b == b;
    }
  }

  lemma FilesSplit(w: seq<Entry>, k: nat)
    requires k <= |w|
    ensures Files(w) == Files(w[..k]) + Files(w[k..])
  {
    assert w == w[..k] + w[k..];
    FilesAppend(w[..k], w[k..]);
  }

  // ---- the walk, from an arbitrary starting count ----

  lemma {:induction false} CountFromSucceeds(w: seq<Entry>, maxFiles: int, count: int)
    ensures CountFrom(w, maxFiles, count).err.None?
            <==> WalkOk(w) && (Files(w) == 0 || count + Files(w) <= maxFiles)
    ensures CountFrom(w, maxFiles, count).err.None?
            ==> CountFrom(w, maxFiles, count).count == count + Files(w)
    decreases |w|
  {
    if w != [] {
      assert WalkOk(w) <==> !w[0].WalkErr? && WalkOk(w[1..]) by {
        if !w[0].WalkErr? && WalkOk(w[1..]) {
          forall i | 0 <= i < |w| ensures !w[i].WalkErr? {
            if i > 0 { assert w[i] == w[1..][i - 1]; }
          }
        }
        if WalkOk(w) {
          forall i | 0 <= i < |w| - 1 ensures !w[1..][i].WalkErr? {
            assert w[1..][i] == w[i + 1];
          }
        }
      }
      match w[0]
      case WalkErr(_) =>
      case Dir => CountFromSucceeds(w[1..], maxFiles, count);
      case File =>
        if count + 1 <= maxFiles {
          CountFromSucceeds(w[1..], maxFiles, count + 1);
        }
    }
  }

  /** Where a failed walk stops, and what it reports. */
  lemma {:induction false} CountFromStops(w: seq<Entry>, maxFiles: int, count: int)
    requires CountFrom(w, maxFiles, count).err.Some?
    ensures var r := CountFrom(w, maxFiles, count);
            var v := r.visited;
            0 < v <= |w|
            && WalkOk(w[..v - 1])
            && (Files(w[..v - 1]) == 0 || count + Files(w[..v - 1]) <= maxFiles)
            && (w[v - 1].File? || w[v - 1].WalkErr?)
            && (w[v - 1].File? ==>
                  r.count == count + Files(w[..v - 1]) + 1 && r.count > maxFiles
                  && r.err == Some(TooManyFiles(r.count, maxFiles)))
            && (w[v - 1].WalkErr? ==>
                  r.count == count + Files(w[..v - 1]) && r.err == Some(w[v - 1].err))
    decreases |w|
  {
    var r := CountFrom(w, maxFiles, count);
    match w[0]
    case WalkErr(_) =>
      assert w[..0] == [];
    case Dir =>
      CountFromStopsStep(w, maxFiles, count, count);
    case File =>
      if count + 1 <= maxFiles {
        CountFromStopsStep(w, maxFiles, count, count + 1);
      } else {
        assert w[..0] == [];
      }
  }

  /** The recursive step of `CountFromStops`, for a first entry that does not stop the walk. */
  lemma {:induction false} CountFromStopsStep(w: seq<Entry>, maxFiles: int, count: int, next: int)
    requires w != [] && !w[0].WalkErr?
    requires w[0].Dir? ==> next == count
    requires w[0].File? ==> next == count + 1 && next <= maxFiles
    requires CountFrom(w, maxFiles, count).err.Some?
    ensures var r := CountFrom(w, maxFiles, count);
            var v := r.visited;
            0 < v <= |w|
            && WalkOk(w[..v - 1])
            && (Files(w[..v - 1]) == 0 || count + Files(w[..v - 1]) <= maxFiles)
            && (w[v - 1].File? || w[v - 1].WalkErr?)
            && (w[v - 1].File? ==>
                  r.count == count + Files(w[..v - 1]) + 1 && r.count > maxFiles
                  && r.err == Some(TooManyFiles(r.count, maxFiles)))
            && (w[v - 1].WalkErr? ==>
                  r.count == count + Files(w[..v - 1]) && r.err == Some(w[v - 1].err))
    decreases |w|, 0
  {
    var rest := w[1..];
    var r' := CountFrom(rest, maxFiles, next);
    CountFromStops(rest, maxFiles, next);
    var v' := r'.visited;
    var v := v' + 1;
    assert w[..v - 1] == [w[0]] + rest[..v' - 1];
    assert w[v - 1] == rest[v' - 1];
    FilesAppend([w[0]], rest[..v' - 1]);
    assert Files([w[0]]) == (if w[0].File? then 1 else 0);
    var p, p' := w[..v - 1], rest[..v' - 1];
    forall i | 0 <= i < |p| ensures !p[i].WalkErr? {
      if i > 0 { assert p[i] == p'[i - 1]; }
    }
  }

  lemma {:induction false} CountFromIgnoresUnvisited(w: seq<Entry>, maxFiles: int, count: int, t: seq<Entry>)
    requires CountFrom(w, maxFiles, count).err.Some?
    ensures CountFrom(w[..CountFrom(w, maxFiles, count).visited] + t, maxFiles, count)
            == CountFrom(w, maxFiles, count)
    decreases |w|
  {
    var v := CountFrom(w, maxFiles, count).visited;
    var u := w[..v] + t;
    assert u[0] == w[0];
    match w[0]
    case WalkErr(_) =>
    case Dir =>
      assert u[1..] == w[1..][..v - 1] + t;
      CountFromIgnoresUnvisited(w[1..], maxFiles, count, t);
    case File =>
      if count + 1 <= maxFiles {
        assert u[1..] == w[1..][..v - 1] + t;
        CountFromIgnoresUnvisited(w[1..], maxFiles, count + 1, t);
      }
  }

  lemma {:induction false} CountFromIgnoresDirs(w: seq<Entry>, maxFiles: int, count: int)
    ensures CountFrom(NonDirs(w), maxFiles, count).count == CountFrom(w, maxFiles, count).count
    ensures CountFrom(NonDirs(w), maxFiles, count).err == CountFrom(w, maxFiles, count).err
    decreases |w|
  {
    if w != [] {
      var n := NonDirs(w);
      match w[0]
      case Dir =>
        assert n == NonDirs(w[1..]);
        CountFromIgnoresDirs(w[1..], maxFiles, count);
      case WalkErr(_) =>
        assert n[0] == w[0];
      case File =>
        assert n[0] == w[0] && n[1..] == NonDirs(w[1..]);
        CountFromIgnoresDirs(w[1..], maxFiles, count + 1);
    }
  }

  // ---- countFiles ----

  /**
   * A walk that ends without error has counted every non-directory entry
   * once, and the count never exceeds the limit unless it is 0. Conversely,
   * the walk ends without error exactly when it meets no walk error and
   * finds no more files than the limit allows.
   */
  lemma CountFilesSucceeds(walk: seq<Entry>, maxFiles: int)
    ensures CountOf(walk, maxFiles).err.None?
            <==> WalkOk(walk) && (Files(walk) == 0 || Files(walk) <= maxFiles)
    ensures CountOf(walk, maxFiles).err.None? ==>
              CountOf(walk, maxFiles).count == Files(walk)
              && CountOf(walk, maxFiles).visited == |walk|
  {
    CountFromSucceeds(walk, maxFiles, 0);
  }

  /**
   * With a limit that is not negative, a count returned without error never
   * exceeds the limit: the check that `run` makes afterwards cannot fail.
   */
  lemma CountFilesWithinLimit(walk: seq<Entry>, maxFiles: int)
    requires maxFiles >= 0
    ensures CountOf(walk, maxFiles).err.None? ==> CountOf(walk, maxFiles).count <= maxFiles
  {
    CountFilesSucceeds(walk, maxFiles);
  }

  /**
   * The walk stops at the file that takes the counter past the limit and
   * returns the count `max(maxFiles, 0) + 1` with the too-many-files error,
   * or at the first walk error, which it returns unchanged with the number
   * of files counted before it. No earlier entry reports an error, and the
   * files before the stopping entry are still within the limit.
   */
  lemma CountFilesStops(walk: seq<Entry>, maxFiles: int)
    requires CountOf(walk, maxFiles).err.Some?
    ensures var r := CountOf(walk, maxFiles);
            var v := r.visited;
            0 < v <= |walk| && WalkOk(walk[..v - 1])
            && (Files(walk[..v - 1]) == 0 || Files(walk[..v - 1]) <= maxFiles)
            && (walk[v - 1].File? ==>
                  r.count == Files(walk[..v]) == (if maxFiles < 0 then 1 else maxFiles + 1)
                  && r.err == Some(TooManyFiles(r.count, maxFiles)))
            && (walk[v - 1].WalkErr? ==>
                  r.count == Files(walk[..v - 1]) && r.err == Some(walk[v - 1].err))
            && !walk[v - 1].Dir?
  {
    var r := CountOf(walk, maxFiles);
    CountFromStops(walk, maxFiles, 0);
    var v := r.visited;
    if walk[v - 1].File? {
      FilesSplit(walk[..v], v - 1);
      assert walk[..v][..v - 1] == walk[..v - 1];
      assert walk[..v][v - 1..] == [walk[v - 1]];
      assert Files([walk[v - 1]]) == 1;
    }
  }

  /** Entries after the one that stops the walk are never visited: they cannot affect the result. */
  lemma CountFilesIgnoresUnvisited(walk: seq<Entry>, maxFiles: int, later: seq<Entry>)
    requires CountOf(walk, maxFiles).err.Some?
    ensures CountOf(walk[..CountOf(walk, maxFiles).visited] + later, maxFiles) == CountOf(walk, maxFiles)
  {
    CountFromIgnoresUnvisited(walk, maxFiles, 0, later);
  }

  /** Directory entries never change the counter nor the error. */
  lemma CountFilesIgnoresDirs(walk: seq<Entry>, maxFiles: int)
    ensures CountOf(NonDirs(walk), maxFiles).count == CountOf(walk, maxFiles).count
    ensures CountOf(NonDirs(walk), maxFiles).err == CountOf(walk, maxFiles).err
  {
    CountFromIgnoresDirs(walk, maxFiles, 0);
  }
}
