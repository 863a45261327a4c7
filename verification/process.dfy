/** The process boundary. Nothing is executed: every external command
    (`docker ...`, `docker-compose ...`) is recorded in a trace, and its
    outcome is read from a script of replies fixed in advance, so that the
    n-th command issued in a session receives reply number n. `time.sleep`
    is a counter. */
module Process {

  type Path = string

  /** What `subprocess.run` hands back: the exit status and the captured text. */
  datatype Outcome = Outcome(exitCode: int, stdout: string, stderr: string) {
    /** `check=True` raises `CalledProcessError` exactly when this is false. */
    predicate Succeeded() {
      exitCode == 0
    }
  }

  /** One argument vector, with the directory it was started in. */
  datatype Command = Command(argv: seq<string>, cwd: Path)

  /** The state a sequence of calls threads through: the reply script, the
      process's working directory, the commands issued so far and the number
      of one-second sleeps taken. */
  datatype Session = Session(replies: nat -> Outcome, cwd: Path, issued: seq<Command>, slept: nat)

  /** The reply the i-th command issued from now on will receive. */
  function Reply(sh: Session, i: nat): Outcome {
    sh.replies(|sh.issued| + i)
  }

  /** Starts `argv` in directory `dir` and waits for it. */
  function RunIn(sh: Session, argv: seq<string>, dir: Path): (r: (Outcome, Session))
    ensures r.0 == Reply(sh, 0)
    ensures Issues(sh, r.1, [Command(argv, dir)])
  {
    (Reply(sh, 0), sh.(issued := sh.issued + [Command(argv, dir)]))
  }

  /** Starts `argv` in the current working directory. */
  function Run(sh: Session, argv: seq<string>): (r: (Outcome, Session))
    ensures r.0 == Reply(sh, 0)
    ensures Issues(sh, r.1, [Command(argv, sh.cwd)])
  {
    RunIn(sh, argv, sh.cwd)
  }

  /** `time.sleep(1)`. */
  function Sleep(sh: Session): (sh': Session)
    ensures Continues(sh, sh', [])
    ensures sh'.slept == sh.slept + 1
  {
    sh.(slept := sh.slept + 1)
  }

  /** `after` is `before` once exactly `cmds` more commands have been issued,
      in that order, with the script and the working directory as they were. */
  ghost predicate Continues(before: Session, after: Session, cmds: seq<Command>) {
    && after.replies == before.replies
    && after.cwd == before.cwd
    && after.issued == before.issued + cmds
    && after.slept >= before.slept
  }

  /** Like `Continues`, with no sleep taken in between. */
  ghost predicate Issues(before: Session, after: Session, cmds: seq<Command>) {
    Continues(before, after, cmds) && after.slept == before.slept
  }

  /** The commands issued between `before` and `after`. */
  function Since(before: Session, after: Session): seq<Command>
    requires |before.issued| <= |after.issued|
  {
    after.issued[|before.issued|..]
  }

  /** What was issued since `before` is exactly what `after` continued by. */
  lemma SinceContinues(before: Session, after: Session, cmds: seq<Command>)
    requires Continues(before, after, cmds)
    ensures |before.issued| <= |after.issued| && Since(before, after) == cmds
  {
    assert after.issued[|before.issued|..] == cmds;
  }

  /** Continuing by `a` then by `b` is continuing by `a + b`; replies shift along. */
  lemma ContinuesTrans(s0: Session, s1: Session, s2: Session, a: seq<Command>, b: seq<Command>)
    requires Continues(s0, s1, a) && Continues(s1, s2, b)
    ensures Continues(s0, s2, a + b)
    ensures forall i: nat :: Reply(s1, i) == Reply(s0, |a| + i)
  {
    assert s0.issued + a + b == s0.issued + (a + b);
  }
}
