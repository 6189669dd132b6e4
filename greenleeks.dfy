/**
 * `run` and `Execute`: read the author identity, check whether the root
 * directory is already tracked, and if not initialise a repository, count
 * its files against the limit, stage everything and commit it.
 *
 * Each library step is an input outcome (`Env`). The run records every step
 * it performs, with whether it succeeded, in a trace, so that what did NOT
 * happen can be stated.
 */
module Greenleeks {
  import opened Errors
  import opened FileCount
  import opened AuthorConfig
  import opened Repository

  /** The command-line options that the run reads. */
  datatype Options = Options(maxFiles: int)

  /** What each library step returns when the run performs it. */
  datatype Env = Env(
    config: GitConfig,
    open: OpenOutcome,
    init: Option<Error>,
    walk: seq<Entry>,
    add: WorktreeCalls,
    commit: WorktreeCalls)

  const CommitMessage: string := "Boilerplate"

  datatype Step =
    | ConfigStep
    | CheckStep
    | InitStep
    | CountStep
      /** The comparison of the returned count with the limit, after the walk. */
    | LimitStep
    | AddStep
    | CommitStep(message: string, author: AuthorInfo)

  datatype Event = Event(step: Step, ok: bool)

  datatype RunOutcome = RunOutcome(err: Option<Error>, trace: seq<Event>)

  /** The steps of a run that goes all the way, in order. */
  function Pipeline(author: AuthorInfo): seq<Step>
  {
    [ConfigStep, CheckStep, InitStep, CountStep, LimitStep, AddStep, CommitStep(CommitMessage, author)]
  }

  /** The events of `trace` are the first steps of the pipeline, in order. */
  predicate FollowsPipeline(trace: seq<Event>, author: AuthorInfo)
  {
    |trace| <= 7 && forall i :: 0 <= i < |trace| ==> trace[i].step == Pipeline(author)[i]
  }

  /**
   * A run performs the first steps of the pipeline, in order; every step but
   * the last succeeds, and the run fails exactly when the last step fails.
   */
  predicate StopsAtFirstFailure(r: RunOutcome, author: AuthorInfo)
  {
    1 <= |r.trace| && FollowsPipeline(r.trace, author)
    && (forall i :: 0 <= i < |r.trace| - 1 ==> r.trace[i].ok)
    && (r.err.None? <==> r.trace[|r.trace| - 1].ok)
  }

  predicate Performed(trace: seq<Event>, step: Step)
  {
    exists i :: 0 <= i < |trace| && trace[i].step == step
  }

  predicate Failed(trace: seq<Event>, step: Step)
  {
    exists i :: 0 <= i < |trace| && trace[i] == Event(step, false)
  }

  predicate Committed(trace: seq<Event>)
  {
    exists i :: 0 <= i < |trace| && trace[i].step.CommitStep?
  }

  /** `t` extended by `step` with its outcome; a failure ends the run with `err`. */
  function Then(t: seq<Event>, step: Step, err: Option<Error>, context: string): (r: RunOutcome)
    ensures r.trace == t + [Event(step, err.None?)]
    ensures r.err.None? <==> err.None?
  {
    match err
    case None => RunOutcome(None, t + [Event(step, true)])
    case Some(e) => RunOutcome(Some(Wrapped(context, e)), t + [Event(step, false)])
  }

  /**
   * What step `k` of the pipeline returns to `run` when it is reached: `None`
   * when it succeeds, otherwise the error `run` reports for it, with the
   * context `run` adds. The comparison with the limit (step 4) reports its
   * error without context.
   */
  function StepError(maxFiles: int, env: Env, k: nat): Option<Error>
  {
    var counted := CountOf(env.walk, maxFiles);
    var e :=
      if k == 0 then UserInfo(env.config).err
      else if k == 1 then IsUnderGitControl(env.open).err
      else if k == 2 then InitializeGitRepository(env.init)
      else if k == 3 then counted.err
      else if k == 4 then (if counted.count > maxFiles then Some(TooManyFiles(counted.count, maxFiles)) else None)
      else if k == 5 then AddAllFiles(env.add)
      else CommitFiles(env.commit);
    if e.None? || k == 4 then e else Some(Wrapped(StepContext(k), e.value))
  }

  /** The context `run` puts in front of the error of each step. */
  function StepContext(k: nat): string
  {
    if k == 0 then "failed to configure git user info"
    else if k == 1 then "failed to check if directory is under git control"
    else if k == 2 then "failed to initialize git repository"
    else if k == 3 then "failed to count files"
    else if k == 5 then "failed to add all files"
    else "failed to commit"
  }

  /**
   * `run`. Every run performs a prefix of the pipeline; all its steps but the
   * last succeed, and it fails exactly when the last one fails. Each step
   * succeeds exactly when its library call does, and a failed run reports
   * the error of its last step. It succeeds either after the check found the
   * directory tracked or after the commit.
   */
  function RunSteps(opts: Options, env: Env): (r: RunOutcome)
    ensures StopsAtFirstFailure(r, UserInfo(env.config).author)
    ensures forall k :: 0 <= k < |r.trace| ==> (r.trace[k].ok <==> StepError(opts.maxFiles, env, k).None?)
    ensures r.err.Some? ==> r.err == StepError(opts.maxFiles, env, |r.trace| - 1)
    ensures r.err.None? ==> |r.trace| == 2 || |r.trace| == 7
    ensures (r.err.None? && |r.trace| == 2) <==> env.config.Loaded? && env.open.Opened?
  {
    var configured := UserInfo(env.config);
    var r0 := Then([], ConfigStep, configured.err, "failed to configure git user info");
    if r0.err.Some? then r0 else
    var check := IsUnderGitControl(env.open);
    var r1 := Then(r0.trace, CheckStep, check.err, "failed to check if directory is under git control");
    if r1.err.Some? || check.underGit then r1 else
    InitAndCommit(opts.maxFiles, env, configured.author, r1.trace)
  }

  /**
   * The part of `run` after the directory was found untracked: initialise,
   * count, compare with the limit, stage and commit, appending to `t`.
   */
  function InitAndCommit(maxFiles: int, env: Env, author: AuthorInfo, t: seq<Event>): (r: RunOutcome)
    requires |t| == 2 && FollowsPipeline(t, author) && t[0].ok && t[1].ok
    ensures StopsAtFirstFailure(r, author) && |r.trace| > 2 && r.trace[..2] == t
    ensures forall k :: 2 <= k < |r.trace| ==> (r.trace[k].ok <==> StepError(maxFiles, env, k).None?)
    ensures r.err.Some? ==> r.err == StepError(maxFiles, env, |r.trace| - 1)
    ensures r.err.None? ==> |r.trace| == 7
  {
    var r2 := Then(t, InitStep, InitializeGitRepository(env.init), "failed to initialize git repository");
    if r2.err.Some? then r2 else
    CountAndCommit(maxFiles, env, author, r2.trace)
  }

  /** The part of `run` after the initialisation: count, compare with the limit, stage and commit. */
  function CountAndCommit(maxFiles: int, env: Env, author: AuthorInfo, t: seq<Event>): (r: RunOutcome)
    requires |t| == 3 && FollowsPipeline(t, author) && t[0].ok && t[1].ok && t[2].ok
    ensures StopsAtFirstFailure(r, author) && |r.trace| > 3 && r.trace[..3] == t
    ensures forall k :: 3 <= k < |r.trace| ==> (r.trace[k].ok <==> StepError(maxFiles, env, k).None?)
    ensures r.err.Some? ==> r.err == StepError(maxFiles, env, |r.trace| - 1)
    ensures r.err.None? ==> |r.trace| == 7
  {
    var counted := CountOf(env.walk, maxFiles);
    var r3 := Then(t, CountStep, counted.err, "failed to count files");
    if r3.err.Some? then r3 else
    if counted.count > maxFiles then
      RunOutcome(Some(TooManyFiles(counted.count, maxFiles)), r3.trace + [Event(LimitStep, false)])
    else
    StageAndCommit(maxFiles, env, author, r3.trace + [Event(LimitStep, true)])
  }

  /** The last part of `run`, once the count is within the limit: stage and commit, appending to `t`. */
  function StageAndCommit(maxFiles: int, env: Env, author: AuthorInfo, t: seq<Event>): (r: RunOutcome)
    requires |t| == 5 && FollowsPipeline(t, author) && forall i :: 0 <= i < 5 ==> t[i].ok
    ensures StopsAtFirstFailure(r, author) && |r.trace| > 5 && r.trace[..5] == t
    ensures forall k :: 5 <= k < |r.trace| ==> (r.trace[k].ok <==> StepError(maxFiles, env, k).None?)
    ensures r.err.Some? ==> r.err == StepError(maxFiles, env, |r.trace| - 1)
    ensures r.err.None? ==> |r.trace| == 7
  {
    var r5 := Then(t, AddStep, AddAllFiles(env.add), "failed to add all files");
    if r5.err.Some? then r5 else
    Then(r5.trace, CommitStep(CommitMessage, author), CommitFiles(env.commit), "failed to commit")
  }

  /** Where in the trace each step of the pipeline stands. */
  lemma StepAt(trace: seq<Event>, author: AuthorInfo, step: Step, k: nat)
    requires k < 7 && FollowsPipeline(trace, author)
    requires Pipeline(author)[k] == step
    ensures Performed(trace, step) <==> k < |trace|
    ensures Failed(trace, step) <==> k < |trace| && !trace[k].ok
  {
  }

  lemma CommittedAt(trace: seq<Event>, author: AuthorInfo)
    requires FollowsPipeline(trace, author)
    ensures Committed(trace) <==> |trace| == 7
  {
    if Committed(trace) {
      var i :| 0 <= i < |trace| && trace[i].step.CommitStep?;
      assert Pipeline(author)[i].CommitStep?;
    }
    if |trace| == 7 {
      assert trace[6].step.CommitStep?;
    }
  }

  /** An already tracked directory: the run succeeds and initialises, counts, stages and commits nothing. */
  lemma AlreadyTrackedDoesNothing(opts: Options, env: Env)
    requires env.config.Loaded? && env.open.Opened?
    ensures var r := RunSteps(opts, env);
            r.err.None? && !Performed(r.trace, InitStep) && !Performed(r.trace, CountStep)
            && !Performed(r.trace, AddStep) && !Committed(r.trace)
  {
  }

  /**
   * A commit is made only with the message "Boilerplate" and the resolved
   * author, after the configuration was read, the directory was found
   * untracked, the repository was initialised, the walk met no error and
   * found no more files than the limit, and staging succeeded.
   */
  lemma CommitOnlyAfterEveryGate(opts: Options, env: Env)
    requires Committed(RunSteps(opts, env).trace)
    ensures var r := RunSteps(opts, env);
            |r.trace| == 7
            && r.trace[6].step == CommitStep("Boilerplate", UserInfo(env.config).author)
            && UserInfo(env.config).err.None?
            && (env.open.RepositoryNotExists? || env.open.WorktreeNotProvided?)
            && env.init.None?
            && WalkOk(env.walk) && Files(env.walk) <= opts.maxFiles
            && AddAllFiles(env.add).None?
  {
    var r := RunSteps(opts, env);
    CommittedAt(r.trace, UserInfo(env.config).author);
    CountFilesSucceeds(env.walk, opts.maxFiles);
  }

  /** A tree with more files than the limit, or a walk error, is never staged nor committed. */
  lemma OverLimitNeverCommits(opts: Options, env: Env)
    requires !WalkOk(env.walk) || Files(env.walk) > opts.maxFiles
    ensures !Performed(RunSteps(opts, env).trace, AddStep) && !Committed(RunSteps(opts, env).trace)
  {
    var r := RunSteps(opts, env);
    var a := UserInfo(env.config).author;
    StepAt(r.trace, a, AddStep, 5);
    CommittedAt(r.trace, a);
    CountFilesSucceeds(env.walk, opts.maxFiles);
  }

  /**
   * An untracked directory whose library steps all succeed and whose walk
   * finds no more files than the limit ends with one commit, by the
   * resolved author, and the run succeeds.
   */
  lemma UntrackedWithinLimitCommits(opts: Options, env: Env)
    requires env.config.Loaded?
    requires env.open.RepositoryNotExists? || env.open.WorktreeNotProvided?
    requires env.init.None?
    requires WalkOk(env.walk) && Files(env.walk) <= opts.maxFiles
    requires AddAllFiles(env.add).None? && CommitFiles(env.commit).None?
    ensures var r := RunSteps(opts, env);
            r.err.None? && |r.trace| == 7
            && r.trace[6] == Event(CommitStep(CommitMessage, UserInfo(env.config).author), true)
  {
    CountFilesSucceeds(env.walk, opts.maxFiles);
  }

  /**
   * A tree with more files than the limit, whose walk meets no error, stops
   * the walk one file past the limit (past 0 for a negative limit), and the
   * run reports the too-many-files error with the counting context.
   */
  lemma OverLimitStopsCount(opts: Options, env: Env)
    requires env.config.Loaded?
    requires env.open.RepositoryNotExists? || env.open.WorktreeNotProvided?
    requires env.init.None?
    requires WalkOk(env.walk) && Files(env.walk) > 0 && Files(env.walk) > opts.maxFiles
    ensures var r := RunSteps(opts, env);
            |r.trace| == 4 && !r.trace[3].ok
            && r.err == Some(Wrapped("failed to count files",
                                     TooManyFiles(if opts.maxFiles < 0 then 1 else opts.maxFiles + 1, opts.maxFiles)))
  {
    var walk := env.walk;
    CountFilesSucceeds(walk, opts.maxFiles);
    CountFilesStops(walk, opts.maxFiles);
    var v := CountOf(walk, opts.maxFiles).visited;
    assert !walk[v - 1].WalkErr?;
  }

  /**
   * Initialising a non-bare repository writes files under `.git` inside the
   * root, and the walk that follows visits them: after a successful
   * initialisation the walk reports an error or sees at least one file.
   */
  predicate InitCreatesFiles(env: Env)
  {
    env.init.None? ==> !WalkOk(env.walk) || Files(env.walk) >= 1
  }

  /**
   * The comparison of the count with the limit after the walk fails exactly
   * when the limit is negative and the walk, without error, found no file
   * at all; the run then fails with "too many files (0), limit is ...". A
   * walk after a real initialisation always sees the files under `.git`, so
   * this needs an environment where initialising creates no file.
   */
  lemma LimitCheckFails(opts: Options, env: Env)
    ensures var r := RunSteps(opts, env);
            Failed(r.trace, LimitStep)
            <==> env.config.Loaded? && (env.open.RepositoryNotExists? || env.open.WorktreeNotProvided?)
                 && env.init.None? && WalkOk(env.walk) && Files(env.walk) == 0 && opts.maxFiles < 0
    ensures var r := RunSteps(opts, env);
            Failed(r.trace, LimitStep) ==> r.err == Some(TooManyFiles(0, opts.maxFiles)) && !InitCreatesFiles(env)
  {
    var r := RunSteps(opts, env);
    StepAt(r.trace, UserInfo(env.config).author, LimitStep, 4);
    CountFilesSucceeds(env.walk, opts.maxFiles);
  }

  /**
   * With a limit that is not negative, or when initialising creates files
   * for the walk to see, the comparison after the walk never fails: the run
   * never returns the unwrapped too-many-files error.
   */
  lemma LimitCheckNeverFails(opts: Options, env: Env)
    requires opts.maxFiles >= 0 || InitCreatesFiles(env)
    ensures !Failed(RunSteps(opts, env).trace, LimitStep)
    ensures RunSteps(opts, env).err.Some? ==> !RunSteps(opts, env).err.value.TooManyFiles?
  {
    var r := RunSteps(opts, env);
    LimitCheckFails(opts, env);
    StepAt(r.trace, UserInfo(env.config).author, LimitStep, 4);
  }

  /**
   * The package-level state of the tool: the options the flags were parsed
   * into and the author identity that `run` resolves for the commit.
   */
  class Tool {
    var opts: Options
    var authorInfo: AuthorInfo

    constructor (opts: Options)
      ensures this.opts == opts && authorInfo == NoAuthor
    {
      this.opts := opts;
      authorInfo := NoAuthor;
    }

    /** `run`: sets the author identity and performs the steps of `RunSteps`. */
    method Run(env: Env) returns (err: Option<Error>, ghost trace: seq<Event>)
      modifies this`authorInfo
      ensures authorInfo == UserInfo(env.config).author
      ensures err == RunSteps(opts, env).err
      ensures trace == RunSteps(opts, env).trace
    {
      trace := [];
      var cfgErr;
      authorInfo, cfgErr := ConfigureGitUserInfo(env.config);
      if cfgErr.Some? {
        err := Some(Wrapped("failed to configure git user info", cfgErr.value));
        trace := trace + [Event(ConfigStep, false)];
        return;
      }
      trace := trace + [Event(ConfigStep, true)];

      var check := IsUnderGitControl(env.open);
      if check.err.Some? {
        err := Some(Wrapped("failed to check if directory is under git control", check.err.value));
        trace := trace + [Event(CheckStep, false)];
        return;
      }
      trace := trace + [Event(CheckStep, true)];
      if check.underGit {
        return None, trace;
      }
      err, trace := InitializeAndCommit(env, trace);
    }

    /** The steps of `run` after the directory was found untracked, appended to `before`. */
    method InitializeAndCommit(env: Env, ghost before: seq<Event>) returns (err: Option<Error>, ghost trace: seq<Event>)
      requires |before| == 2 && FollowsPipeline(before, authorInfo) && before[0].ok && before[1].ok
      ensures err == InitAndCommit(opts.maxFiles, env, authorInfo, before).err
      ensures trace == InitAndCommit(opts.maxFiles, env, authorInfo, before).trace
    {
      trace := before;
      var initErr := InitializeGitRepository(env.init);
      if initErr.Some? {
        err := Some(Wrapped("failed to initialize git repository", initErr.value));
        trace := trace + [Event(InitStep, false)];
        return;
      }
      trace := trace + [Event(InitStep, true)];

      var fileCount, countErr := CountFiles(env.walk, opts.maxFiles);
      if countErr.Some? {
        err := Some(Wrapped("failed to count files", countErr.value));
        trace := trace + [Event(CountStep, false)];
        return;
      }
      trace := trace + [Event(CountStep, true)];

      if fileCount > opts.maxFiles {
        err := Some(TooManyFiles(fileCount, opts.maxFiles));
        trace := trace + [Event(LimitStep, false)];
        return;
      }
      trace := trace + [Event(LimitStep, true)];

      var addErr := AddAllFiles(env.add);
      if addErr.Some? {
        err := Some(Wrapped("failed to add all files", addErr.value));
        trace := trace + [Event(AddStep, false)];
        return;
      }
      trace := trace + [Event(AddStep, true)];

      var commitErr := CommitFiles(env.commit);
      if commitErr.Some? {
        err := Some(Wrapped("failed to commit", commitErr.value));
        trace := trace + [Event(CommitStep(CommitMessage, authorInfo), false)];
        return;
      }
      trace := trace + [Event(CommitStep(CommitMessage, authorInfo), true)];
      err := None;
    }

    /**
     * `Execute`: parses the flags into the options, sets up logging, runs,
     * and maps the outcome to the exit code. `flags` is `None` when parsing
     * fails; the two logging steps are given by whether they succeed.
     */
    method Execute(flags: Option<Options>, logLevelOk: bool, loggerOk: bool, env: Env) returns (code: int)
      modifies this
      ensures code == 0 || code == 1
      ensures code == 0 <==>
                flags.Some? && logLevelOk && loggerOk && RunSteps(flags.value, env).err.None?
      ensures opts == (if flags.Some? then flags.value else old(opts))
      ensures authorInfo == (if flags.Some? && logLevelOk && loggerOk
                             then UserInfo(env.config).author else old(authorInfo))
    {
      if flags.None? {
        return 1;
      }
      opts := flags.value;
      if !logLevelOk {
        return 1;
      }
      if !loggerOk {
        return 1;
      }
      var err;
      ghost var trace;
      err, trace := Run(env);
      if err.Some? {
        return 1;
      }
      return 0;
    }
  }
}
