/** The status checks of `src/dockerstuff/check.py`: the variant that raises
    on every negative answer, including a failed `docker ps`. */
module StrictChecks {
  import opened Text
  import opened Process
  import opened Exceptions
  import opened Docker
  import Checks

  const ListingFailedMessage: string := "Failed to check SQHeaven container status."
  const ImageQueryFailedMessage: string := "Failed to retrieve SQHeaven container image."

  /** `is_docker_running`: the same probe as in the lenient module. */
  function IsDockerRunning(sh: Session): (r: Step<bool>)
    ensures Issues(sh, r.session, [Command(InfoArgv, sh.cwd)])
    ensures r.result == Ok(true) <==> Reply(sh, 0).Succeeded()
    ensures r.result.Raised? <==> !Reply(sh, 0).Succeeded()
    ensures r.result.Raised? ==> r.result.error.Class() == DockerNotRunningErrorClass
  {
    Checks.IsDockerRunning(sh)
  }

  /** `is_sqheaven_running`: True or raises `ContainerNotRunningError`, whose
      message tells a failed listing from an empty one. */
  function IsSqheavenRunning(sh: Session): (r: Step<bool>)
    ensures Issues(sh, r.session, [Command(PsArgv, sh.cwd)])
    ensures r.result == Ok(true) <==> View(Reply(sh, 0)).Present?
    ensures r.result != Ok(false)
    ensures View(Reply(sh, 0)) == ListingFailed ==>
      r.result == Raised(ContainerNotRunningError(ListingFailedMessage))
    ensures View(Reply(sh, 0)) == Absent ==>
      r.result == Raised(ContainerNotRunningError(Checks.NotRunningMessage))
  {
    var (o, sh1) := Run(sh, PsArgv);
    if !o.Succeeded() then Step(Raised(ContainerNotRunningError(ListingFailedMessage)), sh1)
    else if Trim(o.stdout) == [] then Step(Raised(ContainerNotRunningError(Checks.NotRunningMessage)), sh1)
    else Step(Ok(true), sh1)
  }

  /** `is_proper_sqheaven_running`: True for an allowed tag; an unknown tag
      raises `UnexpectedImageError(tag)` and a failed listing a plain `DockerError`. */
  function IsProperSqheavenRunning(sh: Session): (r: Step<bool>)
    ensures Issues(sh, r.session, [Command(PsArgv, sh.cwd)])
    ensures var o := Reply(sh, 0);
      r.result == Ok(true) <==> o.Succeeded() && Trim(o.stdout) in {"sqheaven-pg:latest", "sqheaven-pg:dev", "sqheaven-pg:custom"}
    ensures r.result != Ok(false)
    ensures !Reply(sh, 0).Succeeded() ==> r.result == Raised(DockerError(ImageQueryFailedMessage))
    ensures var o := Reply(sh, 0);
      o.Succeeded() && Trim(o.stdout) !in AllowedImageNames ==> r.result == Raised(UnexpectedImageError(Trim(o.stdout)))
  {
    var (o, sh1) := Run(sh, PsArgv);
    if !o.Succeeded() then Step(Raised(DockerError(ImageQueryFailedMessage)), sh1)
    else
      var imageName := Trim(o.stdout);
      if imageName !in AllowedImageNames then Step(Raised(UnexpectedImageError(imageName)), sh1)
      else Step(Ok(true), sh1)
  }

  /** Whether the i-th check of the status pass, given its reply, passes. */
  predicate Passes(i: nat, o: Outcome) {
    if i == 0 then o.Succeeded()
    else if i == 1 then View(o).Present?
    else o.Succeeded() && Trim(o.stdout) in AllowedImageNames
  }

  /** `check_sqheaven_status`: the three checks in order. It completes iff all
      three pass; otherwise the first failure propagates and no later check runs. */
  function CheckSqheavenStatus(sh: Session): (r: Step<()>)
    ensures r.result.Ok? <==> Passes(0, Reply(sh, 0)) && Passes(1, Reply(sh, 1)) && Passes(2, Reply(sh, 2))
    ensures !Passes(0, Reply(sh, 0)) ==>
      && r.result == Raised(FirstFailure(0, Reply(sh, 0)))
      && Issues(sh, r.session, [Command(InfoArgv, sh.cwd)])
    ensures Passes(0, Reply(sh, 0)) && !Passes(1, Reply(sh, 1)) ==>
      && r.result == Raised(FirstFailure(1, Reply(sh, 1)))
      && Issues(sh, r.session, [Command(InfoArgv, sh.cwd), Command(PsArgv, sh.cwd)])
    ensures Passes(0, Reply(sh, 0)) && Passes(1, Reply(sh, 1)) ==>
      && Issues(sh, r.session, [Command(InfoArgv, sh.cwd), Command(PsArgv, sh.cwd), Command(PsArgv, sh.cwd)])
      && (!Passes(2, Reply(sh, 2)) ==> r.result == Raised(FirstFailure(2, Reply(sh, 2))))
  {
    var info, ps := Command(InfoArgv, sh.cwd), Command(PsArgv, sh.cwd);
    var engine := IsDockerRunning(sh);
    assert engine.session == sh.(issued := sh.issued + [info]);
    if engine.result.Raised? then Step(Raised(engine.result.error), engine.session)
    else
      var running := IsSqheavenRunning(engine.session);
      assert running.session == sh.(issued := sh.issued + [info, ps]);
      if running.result.Raised? then Step(Raised(running.result.error), running.session)
      else
        var proper := IsProperSqheavenRunning(running.session);
        assert proper.session == sh.(issued := sh.issued + [info, ps, ps]);
        if proper.result.Raised? then Step(Raised(proper.result.error), proper.session)
        else Step(Ok(()), proper.session)
  }

  /** The exception the k-th check raises on a failing reply. */
  function FirstFailure(k: nat, o: Outcome): DockerFailure {
    if k == 0 then DockerNotRunningError(Checks.EngineDownMessage)
    else if k == 1 then
      (if o.Succeeded() then ContainerNotRunningError(Checks.NotRunningMessage)
       else ContainerNotRunningError(ListingFailedMessage))
    else if o.Succeeded() then UnexpectedImageError(Trim(o.stdout))
    else DockerError(ImageQueryFailedMessage)
  }

  /** The two modules read a `ps` outcome the same way and differ only in
      what they do with a negative answer: the lenient one returns False, this
      one raises. */
  lemma ListingVariantsCompared(sh: Session)
    ensures Checks.IsSqheavenRunning(sh).session == IsSqheavenRunning(sh).session
    ensures Checks.IsSqheavenRunning(sh).result == Ok(true) <==> IsSqheavenRunning(sh).result == Ok(true)
    ensures Checks.IsSqheavenRunning(sh).result == Ok(false) <==> IsSqheavenRunning(sh).result.Raised?
    ensures !Reply(sh, 0).Succeeded() ==>
      && Checks.IsSqheavenRunning(sh).result == Ok(false)
      && IsSqheavenRunning(sh).result.error.Class() == ContainerNotRunningErrorClass
  {
  }

  /** The strict status pass succeeds only where the lenient one does. The
      lenient one succeeds while the strict one raises exactly when engine and
      container are fine and the image query fails, which the strict one
      reports as `DockerError`. A failed listing makes both raise
      `ContainerNotRunningError`, with different messages; wherever else both
      raise, they raise the same exception. Both issue the same commands. */
  lemma StatusVariantsCompared(sh: Session)
    ensures Checks.CheckSqheavenStatus(sh).session.issued == CheckSqheavenStatus(sh).session.issued
    ensures CheckSqheavenStatus(sh).result.Ok? ==> Checks.CheckSqheavenStatus(sh).result == Ok(true)
    ensures Checks.CheckSqheavenStatus(sh).result == Ok(true) && CheckSqheavenStatus(sh).result.Raised? <==>
      Reply(sh, 0).Succeeded() && View(Reply(sh, 1)).Present? && !Reply(sh, 2).Succeeded()
    ensures Checks.CheckSqheavenStatus(sh).result == Ok(true) && CheckSqheavenStatus(sh).result.Raised? ==>
      CheckSqheavenStatus(sh).result.error == DockerError(ImageQueryFailedMessage)
    ensures Reply(sh, 0).Succeeded() && !Reply(sh, 1).Succeeded() ==>
      && Checks.CheckSqheavenStatus(sh).result == Raised(ContainerNotRunningError(Checks.NotRunningMessage))
      && CheckSqheavenStatus(sh).result == Raised(ContainerNotRunningError(ListingFailedMessage))
    ensures (Checks.CheckSqheavenStatus(sh).result.Raised? && CheckSqheavenStatus(sh).result.Raised?
             && !(Reply(sh, 0).Succeeded() && !Reply(sh, 1).Succeeded())) ==>
      Checks.CheckSqheavenStatus(sh).result.error == CheckSqheavenStatus(sh).result.error
  {
    var lenient := Checks.CheckSqheavenStatus(sh);
    var strict := CheckSqheavenStatus(sh);
    if !Reply(sh, 0).Succeeded() {
      assert !Passes(0, Reply(sh, 0));
    } else if !View(Reply(sh, 1)).Present? {
      assert Passes(0, Reply(sh, 0)) && !Passes(1, Reply(sh, 1));
    } else if !Passes(2, Reply(sh, 2)) {
      assert Passes(0, Reply(sh, 0)) && Passes(1, Reply(sh, 1));
    }
  }
}
