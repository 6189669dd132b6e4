/**
 * The version-control steps of the tool. The version-control library is not
 * modelled: each of its calls is represented by the outcome it returns, and
 * these functions model the decisions and error wrapping around them.
 */
module Repository {
  import opened Errors

  /** What opening the directory as a repository (searching parent directories) returns. */
  datatype OpenOutcome =
    | Opened
      /** The library's `ErrRepositoryNotExists`. */
    | RepositoryNotExists
      /** The library's `ErrWorktreeNotProvided`. */
    | WorktreeNotProvided
      /** Any other error. */
    | OpenFailed(err: Error)

  datatype GitCheck = GitCheck(underGit: bool, err: Option<Error>)

  /**
   * `isUnderGitControl`: a repository that opens is tracked; the two
   * "no repository here" errors mean untracked; anything else is an error,
   * reported with context.
   */
  function IsUnderGitControl(open: OpenOutcome): (r: GitCheck)
    ensures r.underGit <==> open.Opened?
    ensures r.err.None? <==> !open.OpenFailed?
    ensures r.underGit ==> r.err.None?
    ensures open.OpenFailed? ==> r.err == Some(Wrapped("failed to open repository", open.err))
  {
    match open
    case Opened => GitCheck(true, None)
    case RepositoryNotExists => GitCheck(false, None)
    case WorktreeNotProvided => GitCheck(false, None)
    case OpenFailed(e) => GitCheck(false, Some(Wrapped("failed to open repository", e)))
  }

  /** `initializeGitRepository`, given the outcome of creating a non-bare repository. */
  function InitializeGitRepository(initErr: Option<Error>): (r: Option<Error>)
    ensures r.None? <==> initErr.None?
    ensures initErr.Some? ==> r == Some(Wrapped("failed to initialize git repository", initErr.value))
  {
    match initErr
    case None => None
    case Some(e) => Some(Wrapped("failed to initialize git repository", e))
  }

  /**
   * The outcomes of the three library calls of a worktree operation:
   * reopening the repository, obtaining its worktree, and the operation itself.
   */
  datatype WorktreeCalls = WorktreeCalls(open: Option<Error>, worktree: Option<Error>, op: Option<Error>)

  /**
   * A worktree operation stops at the first library call that fails and
   * reports that call's error with its context; it succeeds when all three do.
   */
  function WorktreeOp(calls: WorktreeCalls, opContext: string): (r: Option<Error>)
    ensures r.None? <==> calls.open.None? && calls.worktree.None? && calls.op.None?
    ensures calls.open.Some? ==> r == Some(Wrapped("failed to open repository", calls.open.value))
    ensures calls.open.None? && calls.worktree.Some? ==>
              r == Some(Wrapped("failed to get worktree", calls.worktree.value))
    ensures calls.open.None? && calls.worktree.None? && calls.op.Some? ==>
              r == Some(Wrapped(opContext, calls.op.value))
  {
    if calls.open.Some? then Some(Wrapped("failed to open repository", calls.open.value))
    else if calls.worktree.Some? then Some(Wrapped("failed to get worktree", calls.worktree.value))
    else if calls.op.Some? then Some(Wrapped(opContext, calls.op.value))
    else None
  }

  /** `addAllFiles`: stages `.` in the worktree. */
  function AddAllFiles(calls: WorktreeCalls): Option<Error>
  {
    WorktreeOp(calls, "failed to add all files")
  }

  /** `commit`: commits the staged files; message and signature go to the library call. */
  function CommitFiles(calls: WorktreeCalls): Option<Error>
  {
    WorktreeOp(calls, "failed to commit")
  }
}
