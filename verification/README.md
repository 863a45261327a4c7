# SQHeaven: status checks and container lifecycle

SQHeaven runs a PostgreSQL database in a Docker container,
driven through the `docker` and `docker-compose` command-line tools. This
project models the decision layer that sits between those tools and the
rest of the program:

- the status checks in two near-identical variants. The lenient one
  (`sqheaven/sqheaven/checks.py`) answers False when a `docker ps` fails.
  The strict one (`src/dockerstuff/check.py`) raises instead;
- the exception hierarchy rooted at `DockerError`;
- the lifecycle controller (`sqheaven/sqheaven/connection.py`):
  - the scoped directory change;
  - build;
  - idempotent start and stop;
  - the 20-attempt readiness wait;
  - running a whitespace-split command inside the database service.

Nothing is executed. A `Process.Session` carries:

- a script of replies (exit code, stdout, stderr), so the n-th command
  issued receives reply n;
- the working directory;
- the trace of commands issued so far;
- a counter of one-second sleeps.

Every operation is a pure function from a session to a `Step`. A `Step` holds
the Python outcome (`Ok(value)` or `Raised(exception)`) and the session
afterwards. The contracts therefore state both what each call answers and
exactly which commands it issues, in which directory and in which order.

Modules, one per file:

- `text.dfy` (`Text`): Python's argument-less `str.strip()` and `str.split()`
  over the `str.isspace()` code-point table.
- `process.dfy` (`Process`): outcomes, commands, sessions, the trace relations.
- `exceptions.dfy` (`Exceptions`): the exception classes and `Result`/`Step`.
- `docker.dfy` (`Docker`): shared names, argument vectors, the allow-list and
  the reading of a `docker ps` listing.
- `checks.dfy` (`Checks`): the lenient checks.
- `strict_checks.dfy` (`StrictChecks`): the raising checks, and how they
  compare with the lenient ones.
- `connection.dfy` (`Connection`): the lifecycle controller.

Both check variants are modelled as written, side by side, rather than as one
parametrised check. The two modules differ in several places, and the
controller imports the lenient one:

- a failed `docker ps` is False in the lenient `is_sqheaven_running`; the
  strict one raises `ContainerNotRunningError` saying the status check failed;
- an empty listing is False in the lenient `is_sqheaven_running`; the strict
  one raises `ContainerNotRunningError` saying the container is not running;
- a failed listing is False in the lenient `is_proper_sqheaven_running` and a
  plain `DockerError` in the strict one;
- the lenient `check_sqheaven_status` turns either False from
  `is_sqheaven_running` into `ContainerNotRunningError` saying the container
  is not running, ignores a False from the image check, and returns True;
  the strict one returns None and raises on any failure;
- `is_image_built` exists only in the lenient module.

## Model

| member | source | states |
|---|---|---|
| Checks.IsDockerRunning | sqheaven/sqheaven/checks.py:32-38 | issues exactly `docker info`; completes iff it exits 0, and then with True; never answers False; otherwise raises `DockerNotRunningError` with the fixed message |
| Checks.IsImageBuilt | sqheaven/sqheaven/checks.py:40-46 | issues exactly `docker image inspect sqheaven-pg:latest`; never raises; True iff the inspection exits 0 |
| Checks.IsSqheavenRunning | sqheaven/sqheaven/checks.py:48-57 | issues one filtered `docker ps`; never raises; True iff the listing exits 0 and its output is not all whitespace; a failed listing is False |
| Checks.IsProperSqheavenRunning | sqheaven/sqheaven/checks.py:59-71 | True iff the listing succeeds and the stripped tag is one of the three allowed tags; False iff the listing fails; raises iff the listing succeeds with any other tag, and then `UnexpectedImageError` carries the stripped tag |
| Checks.BlankListingIsUnexpectedImage | sqheaven/sqheaven/checks.py:64-67 | a successful all-whitespace listing is not treated as "not running" by the image check: it raises `UnexpectedImageError("")` |
| Checks.CheckSqheavenStatus | sqheaven/sqheaven/checks.py:73-80 | engine down: raises `DockerNotRunningError` after `docker info` alone, with no `ps`; container absent: raises `ContainerNotRunningError` after info and one `ps`, and the image check never runs; otherwise three commands, True iff the image query failed or the tag is allowed, else `UnexpectedImageError`; never False |
| Checks.StatusIgnoresFailedImageQuery | sqheaven/sqheaven/checks.py:79-80 | engine up, container listed, image query failing: the status check still returns True, after exactly three commands |
| Exceptions.DockerFailure.Class | sqheaven/sqheaven/checks.py:3-19 | the class of every exception the core raises is a subclass of `DockerError`, so one `except DockerError` catches all of them |
| Exceptions.HierarchyRootedAtDockerError | sqheaven/sqheaven/checks.py:3-19 | every declared class except `Exception` derives from `DockerError`; all derive from `Exception`; `DockerError` is a subclass only of itself and `Exception` |
| Exceptions.UnexpectedImageMessage | sqheaven/sqheaven/checks.py:17-19 | the message of `UnexpectedImageError` is strictly longer than the image name and ends with it |
| Docker.View | sqheaven/sqheaven/checks.py:51-54 | a listing reads as failed iff its exit code is non-zero, and as absent iff it succeeds with all-whitespace output; otherwise it names a non-empty stripped image equal to `strip()` of the output |
| Docker.ViewExamples | sqheaven/sqheaven/checks.py:51-54 | `"sqheaven-pg:latest\n"` names the image without the newline; blank lines name no container; exit 1 is a failed listing |
| StrictChecks.IsDockerRunning | src/dockerstuff/check.py:28-34 | issues `docker info`; True iff it exits 0, raises iff it does not, and the exception's class is `DockerNotRunningError` |
| StrictChecks.IsSqheavenRunning | src/dockerstuff/check.py:36-45 | True iff the listing names a container; never False; a failed listing and an empty one both raise `ContainerNotRunningError`, with different messages |
| StrictChecks.IsProperSqheavenRunning | src/dockerstuff/check.py:47-59 | True iff the listing succeeds with an allowed tag; never False; any other tag raises `UnexpectedImageError(tag)`; a failed listing raises a plain `DockerError` |
| StrictChecks.CheckSqheavenStatus | src/dockerstuff/check.py:61-65 | completes iff all three checks pass; otherwise raises the first failing check's exception, having issued only the commands up to and including that check |
| StrictChecks.ListingVariantsCompared | src/dockerstuff/check.py:36-45 | both variants issue the same listing and agree on True; the lenient False is exactly where the strict one raises; a failed listing is False in one and a `ContainerNotRunningError` in the other |
| StrictChecks.StatusVariantsCompared | src/dockerstuff/check.py:61-65 | both status checks issue the same commands; strict success implies lenient success; the lenient one succeeds while the strict one raises exactly when engine and container are fine and the image query fails, which the strict one reports as `DockerError`; after a failed listing both raise `ContainerNotRunningError`, with different messages; wherever else both raise, they raise the same exception |
| Connection.ChangeDir | sqheaven/sqheaven/connection.py:14-22 | the body runs with the new directory and its result, raised or not, is passed through together with its commands and its sleeps; the original working directory is restored afterwards |
| Connection.ComposeBuild | sqheaven/sqheaven/connection.py:29-33 | issues `docker-compose build` in the current directory; completes iff it exits 0, else `DockerError` with the build message |
| Connection.BuildImage | sqheaven/sqheaven/connection.py:25-33 | the build is issued in the parent directory; the working directory afterwards is the original one, on success and on failure |
| Connection.RunComposeCommand | sqheaven/sqheaven/connection.py:34-41 | issues exactly `argv` in the compose directory, without touching the process's directory; completes iff it exits 0, else raises a `DockerError` naming the command and exit status |
| Connection.FirstSuccess | sqheaven/sqheaven/connection.py:68-75 | the offset of the first successful reply in a window: all earlier ones fail, and that one succeeds unless it is the window's end |
| Connection.FirstSuccessIs | sqheaven/sqheaven/connection.py:68-75 | any offset with all earlier replies failing and a success there (or the window's end) is the first success |
| Connection.PollReady | sqheaven/sqheaven/connection.py:65-76 | with the first success on attempt k+1 it completes after k+1 probes and k sleeps; with none it raises the timeout `DockerError` after all probes and as many sleeps |
| Connection.PollReadyUnfold | sqheaven/sqheaven/connection.py:68-75 | one iteration: a probe, then completion on success or a sleep and the remaining attempts |
| Connection.PollReadyAfterFailures | sqheaven/sqheaven/connection.py:68-76 | the wait's outcome, probe count and sleep count for a given first successful attempt, or for none among 20 |
| Connection.WaitForPostgres | sqheaven/sqheaven/connection.py:65-76 | the loop agrees with the recursive wait: it completes iff a probe among the first 20 succeeds, issues k+1 probes (or 20) and sleeps k times |
| Connection.PollReadyMeasured | sqheaven/sqheaven/connection.py:67-75 | the 20-attempt wait completes iff a probe among the first 20 succeeds, after k+1 probes (or 20 on timeout) and k sleeps, k being the number of failures before the first success |
| Connection.StartSqheaven | sqheaven/sqheaven/connection.py:42-52 | engine down: raises after `docker info` alone; already running: completes after info and `ps`, with no `up` and no probe; `up` failing: raises the compose error after three commands; `up` succeeding: continues as the readiness wait |
| Connection.StartTraceAfterUp | sqheaven/sqheaven/connection.py:50-52 | after a successful `up`, everything issued is info, `ps`, `up` and then commands none of which is `up` |
| Connection.StartIssuesUpOnlyWhenAbsent | sqheaven/sqheaven/connection.py:42-52 | `docker-compose up -d` is issued exactly once when the engine answers and the container is not listed, and never otherwise |
| Connection.StartIsIdempotent | sqheaven/sqheaven/connection.py:46-48 | a second start that finds the container listed completes after two commands and no sleep |
| Connection.StartReadyOnLastAttempt | sqheaven/sqheaven/connection.py:68-75 | 19 failing probes then a success: the start completes after 3 + 20 commands and 19 sleeps |
| Connection.StartTimesOut | sqheaven/sqheaven/connection.py:68-76 | 20 failing probes: the start raises the timeout `DockerError` after 3 + 20 commands and 20 sleeps |
| Connection.StopSqheaven | sqheaven/sqheaven/connection.py:53-63 | container not listed: completes after the listing alone, with no `down`; otherwise issues `down`, completing iff it exits 0, else `DockerError` with the stop message |
| Connection.ExecArgv | sqheaven/sqheaven/connection.py:83 | the exec prefix for service `db`, followed by whitespace-free non-empty tokens that together hold exactly the command's non-whitespace characters, in order; the command is those tokens interleaved with whitespace runs whose inner runs are non-empty, so every token boundary falls on whitespace and every whitespace run is a boundary |
| Connection.ExecArgvOfWords | sqheaven/sqheaven/connection.py:83 | a command written as whitespace-free tokens joined by single spaces reaches the container as exactly those tokens |
| Connection.QuotedCommandIsSplitOnSpace | sqheaven/sqheaven/connection.py:92 | `main`'s query `psql -U postgres -c 'SELECT version();'` (the constant `VersionQuery`) is executed with `'SELECT` and `version();'` as two separate arguments |
| Connection.RunInSqheaven | sqheaven/sqheaven/connection.py:78-87 | container not listed: raises `ContainerNotRunningError` before any exec; otherwise never raises; on success a stripped text, the output's when it is not blank and the error stream's otherwise; on failure the error line naming the command followed by the stripped error stream |
| Text.Lead | sqheaven/sqheaven/checks.py:53 | the leading run `strip()` removes is whitespace and stops at the first non-whitespace character |
| Text.TrimEnd | sqheaven/sqheaven/checks.py:53 | a prefix of its input, followed only by whitespace, and not ending in whitespace |
| Text.Trim | sqheaven/sqheaven/checks.py:53 | the result of `strip()` neither starts nor ends with whitespace, and is empty iff the input is all whitespace |
| Text.TrimIsSlice | sqheaven/sqheaven/checks.py:53 | `strip()` of the input is the contiguous slice of it that starts after the leading whitespace |
| Text.TrimCutsWhitespace | sqheaven/sqheaven/checks.py:53 | what lies on either side of `strip()`'s slice is whitespace |
| Text.TrimEmptyIffAllSpace | sqheaven/sqheaven/checks.py:53 | stripping leaves nothing exactly when there is nothing but whitespace |
| Text.TrimUnique | sqheaven/sqheaven/checks.py:64 | any stripped string surrounded by whitespace strips back to itself, so the result is determined by the input |
| Text.TrimIdempotent | sqheaven/sqheaven/checks.py:64 | stripping twice is stripping once |
| Text.WordLen | sqheaven/sqheaven/connection.py:83 | the leading token is whitespace-free and ends at whitespace or at the end |
| Text.Split | sqheaven/sqheaven/connection.py:83 | every token of `split()` is non-empty and whitespace-free |
| Text.SplitEmptyIffAllSpace | sqheaven/sqheaven/connection.py:83 | `split()` yields no tokens exactly when the input is all whitespace |
| Text.SplitKeepsNonSpace | sqheaven/sqheaven/connection.py:83 | the tokens, concatenated, are the input's non-whitespace characters in their original order |
| Text.SplitJoin | sqheaven/sqheaven/connection.py:83 | splitting a single-space join of whitespace-free tokens gives those tokens back |
| Text.SplitNormalises | sqheaven/sqheaven/connection.py:83 | re-joining the tokens with single spaces and splitting again changes nothing |
| Text.SplitCutsAtWhitespace | sqheaven/sqheaven/connection.py:83 | the input is its `split()` tokens interleaved with whitespace runs, one more run than tokens, every run between two tokens non-empty |
| Text.SplitWeave | sqheaven/sqheaven/connection.py:83 | any whitespace-free tokens interleaved with such whitespace runs split back to exactly those tokens, so the interleaving fixes the tokenisation uniquely |
| Text.SplitAfterSpaces | sqheaven/sqheaven/connection.py:83 | leading whitespace does not change the tokens of `split()` |

## Left out

- The `docker` and `docker-compose` programs themselves are a reply script: the model says which command is issued and how its outcome is read, not what Docker does. This includes how `--filter name=` matches names.
- `time.sleep(1)` is a counter; wall-clock time is not modelled.
- The compose directory (`os.path.abspath` of the parent of the directory holding `connection.py`) and the directory `".."` resolves to for the build are parameters, because path resolution depends on the filesystem.
- `os.chdir` failing (a missing directory) is not modelled; `Connection.ChangeDir` assumes the change succeeds.
- The absence of the `docker` binary (`FileNotFoundError` from `subprocess.run`) is not modelled; only non-zero exits are.
- Connection.RunComposeCommand: the raised `DockerError` carries the argument vector and exit status, not the formatted text of Python's `CalledProcessError`.
- The `UnexpectedImageError` value carries the image name; its message is the separate function `Exceptions.UnexpectedImageMessage`.
- `print` output, progress messages, and the entry points `main` (sqheaven/sqheaven/connection.py:89-107) and `__main__` (src/dockerstuff/check.py:67-72) are presentation only. The version query from `main` is kept only as the argument vector `Connection.QuotedCommandIsSplitOnSpace` checks. In `main`, the clause `except ContainerNotRunningError` comes after `except DockerError` and can never run; both clauses print the same line, so nothing observable depends on it.
- Text.Split: its own contract states only that the tokens are non-empty and whitespace-free; that each token is a maximal non-whitespace run is stated by `Text.SplitCutsAtWhitespace` and `Text.SplitWeave`.
- Byte decoding of captured output (`text=True`) is not modelled: outputs are already strings of code points.
