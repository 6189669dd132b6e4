# greenleeks core in Dafny

greenleeks puts a directory under git if it is not already there. It reads
the author identity from the `[user]` section of a git configuration file,
falling back to placeholder values. It then checks whether the root directory
is already inside a repository. If not, it initialises one, counts the
directory's files against a maximum, stages everything and makes one commit
with the message "Boilerplate".

The model covers the decision logic of `greenleeks.go`. Each call into the git
library, the INI reader and the directory walk is an input: the outcome that
call returns.

- `errors.dfy` (module `Errors`): the error values. Go's `fmt.Errorf("ctx: %v", err)`
  becomes `Wrapped(ctx, err)`. The too-many-files error becomes
  `TooManyFiles(count, limit)`. `Message` renders the text, including Go's `%d`
  for integers. A round-trip lemma shows the rendered numbers can be read back.
- `file_count.dfy` (module `FileCount`): `countFiles`. The walk is the sequence of
  callback invocations it makes (`Dir`, `File` for any non-directory entry,
  `WalkErr(e)`), and it stops at the first callback that returns an error.
  `CountFiles` is the callback's loop, with the directory walk around it. It is
  proved equal to the recursive `CountOf`, and the lemmas state what `CountOf`
  returns.
- `author_config.dfy` (module `AuthorConfig`): `configureGitUserInfo`. Reading the
  file yields either a read error or two optional values, `user.name` and
  `user.email`.
- `repository.dfy` (module `Repository`): `isUnderGitControl` and the error
  wrapping of `initializeGitRepository`, `addAllFiles` and `commit`.
- `greenleeks.dfy` (module `Greenleeks`): `run` as the function `RunSteps`. It
  records each step it performs, and whether that step succeeded, in a trace.
  The class `Tool` holds the package-level variables `opts` and `authorInfo`.
  Its methods `Run` and `Execute` update them and are proved against
  `RunSteps`.

Two behaviours of the code go beyond the plain reading "the count that
`countFiles` returns is at most the limit, and it stops at the limit plus
one", because `MaxFiles` is a signed `int`:

- If the limit is negative, the first file stops the walk with count 1, not
  `MaxFiles + 1`. In general the stopping count is `max(MaxFiles, 0) + 1`.
- The check `fileCount > opts.MaxFiles` at greenleeks.go:97 never fires in
  the program. It could fire only with a negative limit and a walk that met
  no error and no file: `countFiles` would then return 0 and no error, and
  the run would report "too many files (0)" (`LimitCheckFails`). But the walk
  runs right after a successful init, which writes files the walk sees, so
  that case exists only in an environment where initialising writes no
  file. `InitCreatesFiles`, below, excludes it.

The walk runs after `git init`, over the whole root, so the count includes
the files that the initialisation has just written under `.git`. With the
default limit of 100, a tree with 99 files of its own can be refused. The
model states this as the predicate `InitCreatesFiles`: after a successful
initialisation the walk sees at least one file or reports an error. Under
that predicate, or with a non-negative limit, the comparison at :97 never
fails (`LimitCheckNeverFails`). An over-limit tree is always reported by the
walk itself, wrapped in "failed to count files" (`OverLimitStopsCount`).

## Model

| member | source | states |
|---|---|---|
| `FileCount.CountFiles` | greenleeks.go:181-196 | the loop over the walk returns exactly the count and the error of the recursive walk `CountOf`, whose results the lemmas below characterise |
| `FileCount.CountFrom` | greenleeks.go:183-194 | the walk visits at most the entries there are; it visits all of them when it ends without error, and at least one when it fails |
| `FileCount.CountFilesSucceeds` | greenleeks.go:181-196 | `countFiles` returns no error if and only if the walk reports no error and the number of non-directory entries is 0 or at most `MaxFiles`; then the count is exactly that number and every entry was visited |
| `FileCount.CountFilesWithinLimit` | greenleeks.go:187-191 | with a non-negative `MaxFiles`, a count returned without error is at most `MaxFiles` |
| `FileCount.CountFilesStops` | greenleeks.go:184-191 | a failed walk stops at a non-directory entry or at a walk error; no earlier entry had a walk error, and the files before the stopping entry were 0 or within `MaxFiles`; at a file it returns count `max(MaxFiles,0)+1`, which is the number of files so far, with `TooManyFiles(count, MaxFiles)`; at a walk error it returns that error unchanged with the count before it |
| `FileCount.CountFilesIgnoresUnvisited` | greenleeks.go:183-195 | entries after the one that stops the walk cannot change its result: they are never visited |
| `FileCount.CountFilesIgnoresDirs` | greenleeks.go:187-188 | removing every directory entry from the walk leaves the count and the error unchanged |
| `AuthorConfig.UserInfo` | greenleeks.go:198-226 | a read failure gives the zero identity and the read error unchanged; otherwise no error, and the name is `user.name` when that is non-empty and "Your Name" otherwise; the e-mail is decided the same way from `user.email` alone, with default "your.email@example.com"; a successful result never has an empty field; so a file with both keys set gives exactly those values, and one without a `[user]` section gives the two placeholders |
| `AuthorConfig.ConfigureGitUserInfo` | greenleeks.go:198-226 | starting from the placeholders and overwriting field by field yields exactly `UserInfo` |
| `Repository.IsUnderGitControl` | greenleeks.go:116-125 | tracked if and only if the open succeeds; no error if and only if the open succeeds or fails with "repository does not exist" or "no worktree"; any other failure is reported with the context "failed to open repository" |
| `Repository.InitializeGitRepository` | greenleeks.go:127-133 | succeeds if and only if creating the repository does; a failure carries its context |
| `Repository.WorktreeOp` | greenleeks.go:135-179 | staging and committing succeed if and only if reopening, getting the worktree and the operation all succeed; otherwise the first failing call's error is reported, with that call's context |
| `Greenleeks.RunSteps` | greenleeks.go:67-114 | every run performs the first steps of config, check, init, count, limit, add, commit, in that order; every step but the last succeeds, and the run fails exactly when its last step fails; each performed step succeeds exactly when its own call does (identity read, open not failed, init, walk, count within `MaxFiles`, staging, commit); a failed run returns the last step's error wrapped in that step's context from lines 72, 77, 89, 94, 103 and 108, and the limit error of line 98 unwrapped; it succeeds only after two steps (already tracked) or after all seven; it stops after two successful steps if and only if the file was read and the directory is in a repository |
| `Greenleeks.InitAndCommit` | greenleeks.go:87-113 | after a successful check that found no repository, the remaining steps keep the first two events and the run's shape; init, count, limit, add and commit each succeed exactly when their call does, a failure returns that step's error with its context, and success needs all seven steps |
| `Greenleeks.CountAndCommit` | greenleeks.go:92-113 | after a successful init, the count, limit, add and commit steps keep the earlier events; each succeeds exactly when its call does, a failure returns that step's error with its context, and success needs all seven steps |
| `Greenleeks.StageAndCommit` | greenleeks.go:101-113 | after a count within the limit, staging and the commit each succeed exactly when their worktree calls do; a failure returns that call's error with the context "failed to add all files" or "failed to commit"; success needs all seven steps |
| `Greenleeks.AlreadyTrackedDoesNothing` | greenleeks.go:75-83 | a directory already in a repository gives success with no init, count, add or commit |
| `Greenleeks.CommitOnlyAfterEveryGate` | greenleeks.go:87-109 | a commit is only attempted with message "Boilerplate" and the resolved author, after the identity was read, the directory was found untracked, init succeeded, the walk met no error with no more files than `MaxFiles`, and staging succeeded |
| `Greenleeks.OverLimitNeverCommits` | greenleeks.go:92-104 | a walk with an error, or with more files than `MaxFiles`, is never staged or committed |
| `Greenleeks.UntrackedWithinLimitCommits` | greenleeks.go:85-113 | an untracked directory within the limit whose library steps all succeed ends in one successful commit by the resolved author, and the run succeeds |
| `Greenleeks.LimitCheckFails` | greenleeks.go:97-99 | the comparison after the walk fails if and only if the earlier steps succeeded, the walk saw no error and no file, and `MaxFiles` is negative; the run then returns `TooManyFiles(0, MaxFiles)`, and initialising created no file for the walk to see |
| `Greenleeks.OverLimitStopsCount` | greenleeks.go:92-95 | once the identity was read and the directory found untracked, a successful init followed by a walk that meets no error and has more files than `MaxFiles` (and at least one) fails at the count step with `failed to count files` around `TooManyFiles(max(MaxFiles,0)+1, MaxFiles)` |
| `Greenleeks.LimitCheckNeverFails` | greenleeks.go:97-99 | with a non-negative `MaxFiles`, or when initialising writes files that the walk then sees, that comparison never fails, and the run never returns the unwrapped too-many-files error |
| `Greenleeks.Tool.constructor` | greenleeks.go:28-37 | the package state starts with the given options and the zero author identity |
| `Greenleeks.Tool.Run` | greenleeks.go:67-114 | sets `authorInfo` to the identity `configureGitUserInfo` returns, including the zero identity on a read failure, and returns the error and trace of `RunSteps` |
| `Greenleeks.Tool.InitializeAndCommit` | greenleeks.go:85-113 | the statements after the check produce the error and trace of `InitAndCommit` |
| `Greenleeks.Tool.Execute` | greenleeks.go:39-58 | the exit code is 0 or 1; it is 0 if and only if the flags parse, both logging steps succeed and the run succeeds; the parsed options are stored before the run |
| `Errors.NatToString` | greenleeks.go:18 | the `%d` rendering of a natural number is a non-empty string of decimal digits without a leading zero (only 0 itself starts with '0') |
| `Errors.IntToStringRoundTrip` | greenleeks.go:18 | the decimal rendering of an integer can be parsed back to that integer |
| `Errors.TooManyFilesMessageReportsCountAndLimit` | greenleeks.go:18 | the too-many-files message is "too many files (C), limit is L", and C and L read back as the exact count and limit |

## Left out

- The git library calls (open with parent search, init, reopen, worktree, add, commit) are not modelled. Each is an input outcome, and the commit's signature and message appear only in the trace.
- What `git init` writes under `.git` is not modelled. `InitCreatesFiles` says only that the walk after a successful init sees a file or an error; the lemmas that need it take it as a precondition.
- The directory walk and file information are not modelled. The walk is the sequence of callback invocations; a directory whose listing fails also appears as its own `WalkErr` entry.
- INI parsing and the section and key lookup are not modelled. The file's contents are the two optional key values, and an absent key reads as the empty string.
- Expanding `~` in the configuration path, and the process abort when that fails (greenleeks.go:199-202), are not modelled.
- Flag parsing, log-level selection and logger setup are not modelled; each is only its success or failure. Log output is not modelled.
- The commit timestamp (`time.Now()`) is not modelled because it is a clock reading.
- Go's `int` (64 bits on the usual platforms) is modelled as an unbounded integer. The counter stops one past the limit, so it could only wrap with a limit of the largest 64-bit value and at least 2^63 files.
- Errors are structured values. The text that `%v` would flatten them into is given by `Message`; the library errors themselves are only their text.
- Greenleeks.Tool.Execute: when flag parsing fails, the options are left unchanged. The flag library may already have written some of them, but nothing reads them afterwards.
