/** The lifecycle controller of `sqheaven/sqheaven/connection.py`: scoped
    directory change, build, idempotent start and stop, the bounded readiness
    wait, and running a command inside the database service. It uses the
    lenient checks module, so a failed listing counts as "not running". */
module Connection {
  import opened Text
  import opened Process
  import opened Exceptions
  import opened Docker
  import Checks

  /** The compose service that holds the database. */
  const ServiceName: string := "db"

  /** Readiness probes made before giving up; one second of sleep follows each failed one. */
  const MaxAttempts: nat := 20

  const ComposeBuildArgv: seq<string> := ["docker-compose", "build"]
  const ComposeUpArgv: seq<string> := ["docker-compose", "up", "-d"]
  const ComposeDownArgv: seq<string> := ["docker-compose", "down"]
  const ExecPrefix: seq<string> := ["docker-compose", "exec", "-T", ServiceName]
  const PgIsReadyArgv: seq<string> := ExecPrefix + ["pg_isready", "-U", "postgres"]

  const BuildFailedMessage: string := "\U{274C} Failed to build SQHeaven image."
  const StopFailedMessage: string := "\U{274C} Failed to stop SQHeaven container."
  const NotReadyMessage: string := "\U{274C} PostgreSQL did not start in time."
  const ExecNotRunningMessage: string := "\U{274C} SQHeaven container is not running."
  const ExecErrorPrefix: string := "\U{274C} Error executing command: "

  /** `with change_dir(path): body`. The body runs with `path` as working
      directory; whether it returns or raises, the directory it started from
      is restored afterwards. */
  function ChangeDir<T>(sh: Session, path: Path, body: Session -> Step<T>): (r: Step<T>)
    ensures r.session.cwd == sh.cwd
    ensures r.result == body(sh.(cwd := path)).result
    ensures r.session.issued == body(sh.(cwd := path)).session.issued
    ensures r.session.replies == body(sh.(cwd := path)).session.replies
    ensures r.session.slept == body(sh.(cwd := path)).session.slept
  {
    var inner := body(sh.(cwd := path));
    Step(inner.result, inner.session.(cwd := sh.cwd))
  }

  /** The body of `build_image`: `docker-compose build` in the current directory. */
  function ComposeBuild(sh: Session): (r: Step<()>)
    ensures Issues(sh, r.session, [Command(ComposeBuildArgv, sh.cwd)])
    ensures r.result.Ok? <==> Reply(sh, 0).Succeeded()
    ensures r.result.Raised? ==> r.result.error == DockerError(BuildFailedMessage)
  {
    var (o, sh1) := Run(sh, ComposeBuildArgv);
    if o.Succeeded() then Step(Ok(()), sh1) else Step(Raised(DockerError(BuildFailedMessage)), sh1)
  }

  /** `build_image`: the build runs in `parent` (what `".."` resolves to)
      and the working directory is the original one afterwards, on both paths. */
  function BuildImage(sh: Session, parent: Path): (r: Step<()>)
    ensures Issues(sh, r.session, [Command(ComposeBuildArgv, parent)])
    ensures r.session.cwd == sh.cwd
    ensures r.result.Ok? <==> Reply(sh, 0).Succeeded()
    ensures r.result.Raised? ==> r.result.error == DockerError(BuildFailedMessage)
  {
    ChangeDir(sh, parent, ComposeBuild)
  }

  /** `run_compose_command`: `argv` started in the compose directory, any
      failure becoming a `DockerError` that names the command. The process's
      own working directory is not touched. */
  function RunComposeCommand(sh: Session, composeDir: Path, argv: seq<string>): (r: Step<()>)
    ensures Issues(sh, r.session, [Command(argv, composeDir)])
    ensures r.result.Ok? <==> Reply(sh, 0).Succeeded()
    ensures r.result.Raised? ==> r.result.error == ComposeCommandFailed(argv, Reply(sh, 0).exitCode)
  {
    var (o, sh1) := RunIn(sh, argv, composeDir);
    if o.Succeeded() then Step(Ok(()), sh1) else Step(Raised(ComposeCommandFailed(argv, o.exitCode)), sh1)
  }

  /** `n` readiness probes issued from directory `cwd`. */
  function Probes(cwd: Path, n: nat): (cmds: seq<Command>)
    ensures |cmds| == n
    ensures forall i | 0 <= i < n :: cmds[i] == Command(PgIsReadyArgv, cwd)
  {
    if n == 0 then [] else [Command(PgIsReadyArgv, cwd)] + Probes(cwd, n - 1)
  }

  /** Among the `left` replies from position `from` on, the offset of the
      first successful one, or `left` when they all fail. */
  function FirstSuccess(replies: nat -> Outcome, from: nat, left: nat): (k: nat)
    ensures k <= left
    ensures forall i | from <= i < from + k :: !replies(i).Succeeded()
    ensures k < left ==> replies(from + k).Succeeded()
    decreases left
  {
    if left == 0 || replies(from).Succeeded() then 0
    else 1 + FirstSuccess(replies, from + 1, left - 1)
  }

  /** The readiness wait with `left` attempts remaining, as a recursive
      function: a probe; on success stop; on failure sleep and go again. With
      the first success on attempt k+1 it makes k+1 probes and k sleeps; with
      none it makes `left` probes and `left` sleeps, then raises. */
  function PollReady(sh: Session, left: nat): (r: Step<()>)
    ensures var k := FirstSuccess(sh.replies, |sh.issued|, left);
      k < left ==>
        && r.result == Ok(())
        && Continues(sh, r.session, Probes(sh.cwd, k + 1))
        && r.session.slept == sh.slept + k
    ensures var k := FirstSuccess(sh.replies, |sh.issued|, left);
      k == left ==>
        && r.result == Raised(DockerError(NotReadyMessage))
        && Continues(sh, r.session, Probes(sh.cwd, left))
        && r.session.slept == sh.slept + left
    decreases left
  {
    if left == 0 then Step(Raised(DockerError(NotReadyMessage)), sh)
    else
      var (o, sh1) := Run(sh, PgIsReadyArgv);
      if o.Succeeded() then Step(Ok(()), sh1)
      else
        var sh2 := Sleep(sh1);
        var r := PollReady(sh2, left - 1);
        assert sh.issued + [Command(PgIsReadyArgv, sh.cwd)] + Probes(sh.cwd, |r.session.issued| - |sh2.issued|)
            == sh.issued + Probes(sh.cwd, |r.session.issued| - |sh2.issued| + 1);
        r
  }

  /** `wait_for_postgres` in `connection.py`: a loop over 20 attempts. It
      agrees with `PollReady`, so it makes at most 20 probes and returns at
      the first success. */
  method WaitForPostgres(sh: Session) returns (r: Step<()>)
    ensures r == PollReady(sh, MaxAttempts)
    ensures var k := FirstSuccess(sh.replies, |sh.issued|, MaxAttempts);
      && (r.result.Ok? <==> k < MaxAttempts)
      && |Since(sh, r.session)| == (if k < MaxAttempts then k + 1 else MaxAttempts)
      && r.session.slept == sh.slept + k
  {
    var cur := sh;
    for attempt := 0 to MaxAttempts
      invariant PollReady(cur, MaxAttempts - attempt) == PollReady(sh, MaxAttempts)
      invariant |cur.issued| == |sh.issued| + attempt && cur.slept == sh.slept + attempt
    {
      PollReadyUnfold(cur, MaxAttempts - attempt);
      var (o, next) := Run(cur, PgIsReadyArgv);
      if o.Succeeded() {
        r := Step(Ok(()), next);
        PollReadyMeasured(sh);
        return;
      }
      cur := Sleep(next);
    }
    r := Step(Raised(DockerError(NotReadyMessage)), cur);
    PollReadyMeasured(sh);
  }

  /** The full wait succeeds iff some probe does, after as many probes and
      sleeps as its first-success count says. */
  lemma PollReadyMeasured(sh: Session)
    ensures var r, k := PollReady(sh, MaxAttempts), FirstSuccess(sh.replies, |sh.issued|, MaxAttempts);
      && (r.result.Ok? <==> k < MaxAttempts)
      && |Since(sh, r.session)| == (if k < MaxAttempts then k + 1 else MaxAttempts)
      && r.session.slept == sh.slept + k
  {
    var r, k := PollReady(sh, MaxAttempts), FirstSuccess(sh.replies, |sh.issued|, MaxAttempts);
    if k < MaxAttempts {
      SinceContinues(sh, r.session, Probes(sh.cwd, k + 1));
    } else {
      SinceContinues(sh, r.session, Probes(sh.cwd, MaxAttempts));
    }
  }

  lemma PollReadyUnfold(sh: Session, left: nat)
    requires left > 0
    ensures var (o, next) := Run(sh, PgIsReadyArgv);
      PollReady(sh, left) == if o.Succeeded() then Step(Ok(()), next) else PollReady(Sleep(next), left - 1)
  {
  }

  /** `start_sqheaven`: engine probe, then listing; `up` and the readiness
      wait only when the container is not already running. */
  function StartSqheaven(sh: Session, composeDir: Path): (r: Step<()>)
    ensures var info, ps := Command(InfoArgv, sh.cwd), Command(PsArgv, sh.cwd);
      !Reply(sh, 0).Succeeded() ==>
        && r.result == Raised(DockerNotRunningError(Checks.EngineDownMessage))
        && Issues(sh, r.session, [info])
    ensures var info, ps := Command(InfoArgv, sh.cwd), Command(PsArgv, sh.cwd);
      Reply(sh, 0).Succeeded() && View(Reply(sh, 1)).Present? ==>
        && r.result == Ok(())
        && Issues(sh, r.session, [info, ps])
    ensures var info, ps, up := Command(InfoArgv, sh.cwd), Command(PsArgv, sh.cwd), Command(ComposeUpArgv, composeDir);
      Reply(sh, 0).Succeeded() && !View(Reply(sh, 1)).Present? && !Reply(sh, 2).Succeeded() ==>
        && r.result == Raised(ComposeCommandFailed(ComposeUpArgv, Reply(sh, 2).exitCode))
        && Issues(sh, r.session, [info, ps, up])
    ensures var info, ps, up := Command(InfoArgv, sh.cwd), Command(PsArgv, sh.cwd), Command(ComposeUpArgv, composeDir);
      Reply(sh, 0).Succeeded() && !View(Reply(sh, 1)).Present? && Reply(sh, 2).Succeeded() ==>
        r == PollReady(sh.(issued := sh.issued + [info, ps, up]), MaxAttempts)
  {
    var info, ps, up := Command(InfoArgv, sh.cwd), Command(PsArgv, sh.cwd), Command(ComposeUpArgv, composeDir);
    var engine := Checks.IsDockerRunning(sh);
    assert engine.session == sh.(issued := sh.issued + [info]);
    if engine.result.Raised? then Step(Raised(engine.result.error), engine.session)
    else
      var running := Checks.IsSqheavenRunning(engine.session);
      assert running.session == sh.(issued := sh.issued + [info, ps]);
      if running.result.value then Step(Ok(()), running.session)
      else
        var started := RunComposeCommand(running.session, composeDir, ComposeUpArgv);
        assert started.session == sh.(issued := sh.issued + [info, ps, up]);
        if started.result.Raised? then Step(Raised(started.result.error), started.session)
        else PollReady(started.session, MaxAttempts)
  }

  /** `stop_sqheaven`: a no-op when the container is not listed; otherwise
      `docker-compose down` in the current directory, a failure raising. */
  function StopSqheaven(sh: Session): (r: Step<()>)
    ensures !View(Reply(sh, 0)).Present? ==>
      && r.result == Ok(())
      && Issues(sh, r.session, [Command(PsArgv, sh.cwd)])
    ensures View(Reply(sh, 0)).Present? ==>
      && Issues(sh, r.session, [Command(PsArgv, sh.cwd), Command(ComposeDownArgv, sh.cwd)])
      && (r.result.Ok? <==> Reply(sh, 1).Succeeded())
      && (r.result.Raised? ==> r.result.error == DockerError(StopFailedMessage))
  {
    var running := Checks.IsSqheavenRunning(sh);
    if !running.result.value then Step(Ok(()), running.session)
    else
      var (o, sh2) := Run(running.session, ComposeDownArgv);
      ContinuesTrans(sh, running.session, sh2, [Command(PsArgv, sh.cwd)], [Command(ComposeDownArgv, sh.cwd)]);
      if o.Succeeded() then Step(Ok(()), sh2) else Step(Raised(DockerError(StopFailedMessage)), sh2)
  }

  /** The argument vector `run_in_sqheaven` executes for `command`: the exec
      prefix, then the command cut at every whitespace run and nowhere else.
      Together, the words and the interleaving fix the tokens uniquely (see
      `SplitWeave`). */
  function ExecArgv(command: string): (argv: seq<string>)
    ensures |argv| >= |ExecPrefix| && argv[..|ExecPrefix|] == ExecPrefix
    ensures Words(argv[|ExecPrefix|..]) && Concat(argv[|ExecPrefix|..]) == NonSpace(command)
    ensures var ws, gaps := argv[|ExecPrefix|..], Gaps(command);
      && |gaps| == |ws| + 1 && Separators(gaps) && Weave(gaps, ws) == command
  {
    var ws := Split(command);
    SplitKeepsNonSpace(command);
    SplitCutsAtWhitespace(command);
    assert (ExecPrefix + ws)[..|ExecPrefix|] == ExecPrefix && (ExecPrefix + ws)[|ExecPrefix|..] == ws;
    ExecPrefix + ws
  }

  /** `run_in_sqheaven`: refuses with `ContainerNotRunningError` before any
      exec when the container is not listed. Otherwise it runs the tokenised
      command in the service and returns text, never raising: trimmed stdout,
      or trimmed stderr when stdout is blank, or on failure an error line
      naming the command followed by the trimmed stderr. */
  function RunInSqheaven(sh: Session, command: string): (r: Step<string>)
    ensures !View(Reply(sh, 0)).Present? ==>
      && r.result == Raised(ContainerNotRunningError(ExecNotRunningMessage))
      && Issues(sh, r.session, [Command(PsArgv, sh.cwd)])
    ensures View(Reply(sh, 0)).Present? ==>
      && r.result.Ok?
      && Issues(sh, r.session, [Command(PsArgv, sh.cwd), Command(ExecArgv(command), sh.cwd)])
    ensures var o := Reply(sh, 1);
      View(Reply(sh, 0)).Present? && o.Succeeded() ==>
        && IsTrimmed(r.result.value)
        && (!AllSpace(o.stdout) ==> r.result.value == Trim(o.stdout))
        && (AllSpace(o.stdout) ==> r.result.value == Trim(o.stderr))
    ensures var o := Reply(sh, 1);
      View(Reply(sh, 0)).Present? && !o.Succeeded() ==>
        r.result.value == ExecErrorPrefix + command + "\n" + Trim(o.stderr)
  {
    var running := Checks.IsSqheavenRunning(sh);
    if !running.result.value then
      Step(Raised(ContainerNotRunningError(ExecNotRunningMessage)), running.session)
    else
      var (o, sh2) := Run(running.session, ExecArgv(command));
      ContinuesTrans(sh, running.session, sh2, [Command(PsArgv, sh.cwd)], [Command(ExecArgv(command), sh.cwd)]);
      if o.Succeeded() then
        var out := Trim(o.stdout);
        Step(Ok(if out != [] then out else Trim(o.stderr)), sh2)
      else
        Step(Ok(ExecErrorPrefix + command + "\n" + Trim(o.stderr)), sh2)
  }

  /** How many of `cmds` run the argument vector `argv`. */
  function CountArgv(cmds: seq<Command>, argv: seq<string>): nat {
    if |cmds| == 0 then 0
    else (if cmds[0].argv == argv then 1 else 0) + CountArgv(cmds[1..], argv)
  }

  lemma {:induction false} ProbesAreNotUp(cwd: Path, n: nat)
    ensures CountArgv(Probes(cwd, n), ComposeUpArgv) == 0
    decreases n
  {
    if n > 0 {
      assert PgIsReadyArgv != ComposeUpArgv by { assert |PgIsReadyArgv| == 7; }
      assert Probes(cwd, n)[1..] == Probes(cwd, n - 1);
      ProbesAreNotUp(cwd, n - 1);
    }
  }

  /** When `up` succeeds, `start_sqheaven` goes on with readiness probes only. */
  lemma StartTraceAfterUp(sh: Session, composeDir: Path) returns (rest: seq<Command>)
    requires Reply(sh, 0).Succeeded() && !View(Reply(sh, 1)).Present? && Reply(sh, 2).Succeeded()
    ensures var r := StartSqheaven(sh, composeDir);
      && |sh.issued| <= |r.session.issued|
      && CountArgv(rest, ComposeUpArgv) == 0
      && Since(sh, r.session) == [Command(InfoArgv, sh.cwd), Command(PsArgv, sh.cwd), Command(ComposeUpArgv, composeDir)] + rest
  {
    var cmds := [Command(InfoArgv, sh.cwd), Command(PsArgv, sh.cwd), Command(ComposeUpArgv, composeDir)];
    var after := sh.(issued := sh.issued + cmds);
    var w := PollReady(after, MaxAttempts);
    assert StartSqheaven(sh, composeDir) == w;
    var k := FirstSuccess(after.replies, |after.issued|, MaxAttempts);
    var n := if k < MaxAttempts then k + 1 else MaxAttempts;
    rest := Probes(sh.cwd, n);
    assert Continues(after, w.session, rest);
    ContinuesTrans(sh, after, w.session, cmds, rest);
    SinceContinues(sh, w.session, cmds + rest);
    ProbesAreNotUp(sh.cwd, n);
  }

  /** `start_sqheaven` issues `docker-compose up -d` exactly once when the
      engine answers and the container is not listed, and never otherwise. */
  lemma StartIssuesUpOnlyWhenAbsent(sh: Session, composeDir: Path)
    ensures var r := StartSqheaven(sh, composeDir);
      && |sh.issued| <= |r.session.issued|
      && CountArgv(Since(sh, r.session), ComposeUpArgv)
         == (if Reply(sh, 0).Succeeded() && !View(Reply(sh, 1)).Present? then 1 else 0)
  {
    var info, ps, up := Command(InfoArgv, sh.cwd), Command(PsArgv, sh.cwd), Command(ComposeUpArgv, composeDir);
    var r := StartSqheaven(sh, composeDir);
    StartTraceCount(info, ps, up, []);
    if !Reply(sh, 0).Succeeded() {
      SinceContinues(sh, r.session, [info]);
    } else if View(Reply(sh, 1)).Present? {
      SinceContinues(sh, r.session, [info, ps]);
    } else if !Reply(sh, 2).Succeeded() {
      SinceContinues(sh, r.session, [info, ps, up]);
      assert [info, ps, up] + [] == [info, ps, up];
    } else {
      var rest := StartTraceAfterUp(sh, composeDir);
      StartTraceCount(info, ps, up, rest);
    }
  }

  lemma StartTraceCount(info: Command, ps: Command, up: Command, rest: seq<Command>)
    requires info.argv == InfoArgv && ps.argv == PsArgv && up.argv == ComposeUpArgv
    ensures CountArgv([info], ComposeUpArgv) == 0
    ensures CountArgv([info, ps], ComposeUpArgv) == 0
    ensures CountArgv([info, ps, up] + rest, ComposeUpArgv) == 1 + CountArgv(rest, ComposeUpArgv)
  {
    assert InfoArgv != ComposeUpArgv && PsArgv != ComposeUpArgv by {
      assert |InfoArgv| == 2 && |PsArgv| == 6;
    }
    assert CountArgv([ps], ComposeUpArgv) == 0 by {
      assert [ps][1..] == [];
    }
    assert CountArgv([info, ps], ComposeUpArgv) == 0 by {
      assert [info, ps][1..] == [ps];
    }
    var s3 := [up] + rest;
    assert CountArgv(s3, ComposeUpArgv) == 1 + CountArgv(rest, ComposeUpArgv) by {
      assert s3[0] == up && s3[1..] == rest;
    }
    var s2 := [ps] + s3;
    assert CountArgv(s2, ComposeUpArgv) == CountArgv(s3, ComposeUpArgv) by {
      assert s2[0] == ps && s2[1..] == s3;
    }
    var s1 := [info] + s2;
    assert CountArgv(s1, ComposeUpArgv) == CountArgv(s2, ComposeUpArgv) by {
      assert s1[0] == info && s1[1..] == s2;
    }
    assert s1 == [info, ps, up] + rest;
  }

  /** A second start that finds the container listed issues only the engine
      probe and the listing: no `up`, no readiness probes, no sleep. */
  lemma StartIsIdempotent(sh: Session, composeDir: Path)
    requires var first := StartSqheaven(sh, composeDir);
      first.result.Ok? && Reply(first.session, 0).Succeeded() && View(Reply(first.session, 1)).Present?
    ensures var second := StartSqheaven(StartSqheaven(sh, composeDir).session, composeDir);
      && second.result == Ok(())
      && |Since(StartSqheaven(sh, composeDir).session, second.session)| == 2
      && second.session.slept == StartSqheaven(sh, composeDir).session.slept
  {
  }

  /** A readiness probe that fails 19 times and then succeeds: the start
      completes after all 20 attempts and 19 sleeps. */
  lemma StartReadyOnLastAttempt(sh: Session, composeDir: Path)
    requires Reply(sh, 0).Succeeded() && !View(Reply(sh, 1)).Present? && Reply(sh, 2).Succeeded()
    requires forall i | 3 <= i < 3 + MaxAttempts - 1 :: !Reply(sh, i).Succeeded()
    requires Reply(sh, 3 + MaxAttempts - 1).Succeeded()
    ensures var r := StartSqheaven(sh, composeDir);
      && r.result == Ok(())
      && |r.session.issued| == |sh.issued| + 3 + MaxAttempts
      && r.session.slept == sh.slept + MaxAttempts - 1
  {
    var cmds := [Command(InfoArgv, sh.cwd), Command(PsArgv, sh.cwd), Command(ComposeUpArgv, composeDir)];
    var after := sh.(issued := sh.issued + cmds);
    forall i | 0 <= i < MaxAttempts - 1 ensures !Reply(after, i).Succeeded() {
      ReplyAfter(sh, cmds, i);
    }
    ReplyAfter(sh, cmds, MaxAttempts - 1);
    PollReadyAfterFailures(after, MaxAttempts - 1);
    assert StartSqheaven(sh, composeDir) == PollReady(after, MaxAttempts);
  }

  /** A readiness probe that never succeeds: the start raises the timeout
      error after exactly 20 probes and 20 sleeps. */
  lemma StartTimesOut(sh: Session, composeDir: Path)
    requires Reply(sh, 0).Succeeded() && !View(Reply(sh, 1)).Present? && Reply(sh, 2).Succeeded()
    requires forall i | 3 <= i < 3 + MaxAttempts :: !Reply(sh, i).Succeeded()
    ensures var r := StartSqheaven(sh, composeDir);
      && r.result == Raised(DockerError(NotReadyMessage))
      && |r.session.issued| == |sh.issued| + 3 + MaxAttempts
      && r.session.slept == sh.slept + MaxAttempts
  {
    var cmds := [Command(InfoArgv, sh.cwd), Command(PsArgv, sh.cwd), Command(ComposeUpArgv, composeDir)];
    var after := sh.(issued := sh.issued + cmds);
    forall i | 0 <= i < MaxAttempts ensures !Reply(after, i).Succeeded() {
      ReplyAfter(sh, cmds, i);
    }
    PollReadyAfterFailures(after, MaxAttempts);
    assert StartSqheaven(sh, composeDir) == PollReady(after, MaxAttempts);
  }

  /** After `cmds` more commands, the i-th reply from now is the one that
      was |cmds| + i replies ahead before. */
  lemma ReplyAfter(sh: Session, cmds: seq<Command>, i: nat)
    ensures Reply(sh.(issued := sh.issued + cmds), i) == Reply(sh, |cmds| + i)
  {
  }

  /** The readiness wait with the first success on reply k (or none among
      the 20 when k = 20) ends after exactly that many probes and k sleeps. */
  lemma PollReadyAfterFailures(sh: Session, k: nat)
    requires k <= MaxAttempts
    requires forall i | 0 <= i < k :: !Reply(sh, i).Succeeded()
    requires k < MaxAttempts ==> Reply(sh, k).Succeeded()
    ensures var r := PollReady(sh, MaxAttempts);
      && (r.result == Ok(()) <==> k < MaxAttempts)
      && (k == MaxAttempts ==> r.result == Raised(DockerError(NotReadyMessage)))
      && |r.session.issued| == |sh.issued| + (if k < MaxAttempts then k + 1 else MaxAttempts)
      && r.session.slept == sh.slept + k
  {
    forall j | |sh.issued| <= j < |sh.issued| + k ensures !sh.replies(j).Succeeded() {
      assert sh.replies(j) == Reply(sh, j - |sh.issued|);
    }
    FirstSuccessIs(sh.replies, |sh.issued|, MaxAttempts, k);
  }

  /** `FirstSuccess` is the first success: any k with all earlier replies
      failing and reply k succeeding (or k = left) is it. */
  lemma {:induction false} FirstSuccessIs(replies: nat -> Outcome, from: nat, left: nat, k: nat)
    requires k <= left
    requires forall i | from <= i < from + k :: !replies(i).Succeeded()
    requires k < left ==> replies(from + k).Succeeded()
    ensures FirstSuccess(replies, from, left) == k
    decreases left
  {
    if left > 0 && !replies(from).Succeeded() {
      FirstSuccessIs(replies, from + 1, left - 1, k - 1);
    }
  }

  /** Tokens that hold no whitespace reach the container unchanged. */
  lemma ExecArgvOfWords(ws: seq<string>)
    requires Words(ws)
    ensures ExecArgv(Join(ws)) == ExecPrefix + ws
  {
    SplitJoin(ws);
  }

  /** The version query that `main` in `connection.py` runs. */
  const VersionQuery: string := "psql -U postgres -c 'SELECT version();'"

  /** The quoted SQL of `VersionQuery` is cut at its space, so `psql` receives
      `'SELECT` and `version();'` as two arguments. */
  lemma QuotedCommandIsSplitOnSpace()
    ensures ExecArgv(VersionQuery)
      == ["docker-compose", "exec", "-T", "db", "psql", "-U", "postgres", "-c", "'SELECT", "version();'"]
  {
    VersionQueryJoined();
    JoinedQueryIsSplitOnSpace();
  }

  lemma JoinedQueryIsSplitOnSpace()
    ensures ExecArgv("psql" + " " + ("-U" + " " + ("postgres" + " " + ("-c" + " " + ("'SELECT" + " " + "version();'")))))
      == ["docker-compose", "exec", "-T", "db", "psql", "-U", "postgres", "-c", "'SELECT", "version();'"]
  {
    var ws := ["psql", "-U", "postgres", "-c", "'SELECT", "version();'"];
    assert ws[1..] == ["-U", "postgres", "-c", "'SELECT", "version();'"];
    assert ws[1..][1..] == ["postgres", "-c", "'SELECT", "version();'"];
    assert ws[1..][1..][1..] == ["-c", "'SELECT", "version();'"];
    assert ws[1..][1..][1..][1..] == ["'SELECT", "version();'"];
    assert ws[1..][1..][1..][1..][1..] == ["version();'"];
    assert Join(ws) == "psql" + " " + ("-U" + " " + ("postgres" + " " + ("-c" + " " + ("'SELECT" + " " + "version();'"))));
    NoSpaceWithoutBlank(ws);
    ExecArgvOfWords(ws);
  }

  lemma VersionQueryJoined()
    ensures VersionQuery == "psql" + " " + ("-U" + " " + ("postgres" + " " + ("-c" + " " + ("'SELECT" + " " + "version();'"))))
  {
  }

  /** Tokens built from printable ASCII other than the blank are words. */
  lemma NoSpaceWithoutBlank(ws: seq<string>)
    requires forall k | 0 <= k < |ws| :: |ws[k]| > 0 && forall i | 0 <= i < |ws[k]| :: '!' <= ws[k][i] <= '~'
    ensures Words(ws)
  {
  }
}
