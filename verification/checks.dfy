/** The status checks of `sqheaven/sqheaven/checks.py`: the variant in which
    a failed listing reads as "not running" and a failed image query as
    "not proper", without raising. The lifecycle controller imports this one. */
module Checks {
  import opened Text
  import opened Process
  import opened Exceptions
  import opened Docker

  const EngineDownMessage: string := "Docker is not running or unavailable."
  const NotRunningMessage: string := "SQHeaven container is not running."

  /** `is_docker_running`: `docker info`, with output discarded. It returns
      True or raises; it never returns False. */
  function IsDockerRunning(sh: Session): (r: Step<bool>)
    ensures Issues(sh, r.session, [Command(InfoArgv, sh.cwd)])
    ensures r.result.Ok? <==> Reply(sh, 0).Succeeded()
    ensures r.result != Ok(false)
    ensures r.result.Raised? ==> r.result.error == DockerNotRunningError(EngineDownMessage)
  {
    var (o, sh1) := Run(sh, InfoArgv);
    if o.Succeeded() then Step(Ok(true), sh1)
    else Step(Raised(DockerNotRunningError(EngineDownMessage)), sh1)
  }

  /** `is_image_built`: inspects `sqheaven-pg:latest`; a failed inspection
      is the answer False, never an exception. */
  function IsImageBuilt(sh: Session): (r: Step<bool>)
    ensures Issues(sh, r.session, [Command(InspectArgv, sh.cwd)])
    ensures r.result.Ok?
    ensures r.result.value <==> Reply(sh, 0).Succeeded()
  {
    var (o, sh1) := Run(sh, InspectArgv);
    Step(Ok(o.Succeeded()), sh1)
  }

  /** `is_sqheaven_running`: True exactly when the listing succeeds with
      non-blank output. A failed listing is False, not an error. */
  function IsSqheavenRunning(sh: Session): (r: Step<bool>)
    ensures Issues(sh, r.session, [Command(PsArgv, sh.cwd)])
    ensures r.result.Ok?
    ensures r.result.value <==> View(Reply(sh, 0)).Present?
    ensures r.result.value <==> Reply(sh, 0).Succeeded() && !AllSpace(Reply(sh, 0).stdout)
  {
    var (o, sh1) := Run(sh, PsArgv);
    if !o.Succeeded() then Step(Ok(false), sh1)
    else if Trim(o.stdout) == [] then Step(Ok(false), sh1)
    else Step(Ok(true), sh1)
  }

  /** `is_proper_sqheaven_running`: the trimmed image column must be one of
      the three allowed tags, else `UnexpectedImageError` carries it. A failed
      listing is False. */
  function IsProperSqheavenRunning(sh: Session): (r: Step<bool>)
    ensures Issues(sh, r.session, [Command(PsArgv, sh.cwd)])
    ensures var o := Reply(sh, 0);
      r.result == Ok(true) <==> o.Succeeded() && Trim(o.stdout) in {"sqheaven-pg:latest", "sqheaven-pg:dev", "sqheaven-pg:custom"}
    ensures r.result == Ok(false) <==> !Reply(sh, 0).Succeeded()
    ensures var o := Reply(sh, 0);
      r.result.Raised? <==> o.Succeeded() && Trim(o.stdout) !in AllowedImageNames
    ensures r.result.Raised? ==> r.result.error == UnexpectedImageError(Trim(Reply(sh, 0).stdout))
  {
    var (o, sh1) := Run(sh, PsArgv);
    if !o.Succeeded() then Step(Ok(false), sh1)
    else
      var imageName := Trim(o.stdout);
      if imageName !in AllowedImageNames then Step(Raised(UnexpectedImageError(imageName)), sh1)
      else Step(Ok(true), sh1)
  }

  /** `check_sqheaven_status`: engine, then container, then image, stopping at
      the first exception. The image check's False is discarded, so a failed
      image query still ends in True. */
  function CheckSqheavenStatus(sh: Session): (r: Step<bool>)
    ensures !Reply(sh, 0).Succeeded() ==>
      && r.result == Raised(DockerNotRunningError(EngineDownMessage))
      && Issues(sh, r.session, [Command(InfoArgv, sh.cwd)])
    ensures Reply(sh, 0).Succeeded() && !View(Reply(sh, 1)).Present? ==>
      && r.result == Raised(ContainerNotRunningError(NotRunningMessage))
      && Issues(sh, r.session, [Command(InfoArgv, sh.cwd), Command(PsArgv, sh.cwd)])
    ensures Reply(sh, 0).Succeeded() && View(Reply(sh, 1)).Present? ==>
      && Issues(sh, r.session, [Command(InfoArgv, sh.cwd), Command(PsArgv, sh.cwd), Command(PsArgv, sh.cwd)])
      && (r.result == Ok(true) <==> !Reply(sh, 2).Succeeded() || Trim(Reply(sh, 2).stdout) in AllowedImageNames)
      && (r.result.Raised? ==> r.result.error == UnexpectedImageError(Trim(Reply(sh, 2).stdout)))
    ensures r.result != Ok(false)
  {
    var engine := IsDockerRunning(sh);
    if engine.result.Raised? then Step(Raised(engine.result.error), engine.session)
    else
      var running := IsSqheavenRunning(engine.session);
      if !running.result.value then
        Step(Raised(ContainerNotRunningError(NotRunningMessage)), running.session)
      else
        var proper := IsProperSqheavenRunning(running.session);
        ContinuesTrans(sh, engine.session, running.session, [Command(InfoArgv, sh.cwd)], [Command(PsArgv, sh.cwd)]);
        ContinuesTrans(sh, running.session, proper.session,
                       [Command(InfoArgv, sh.cwd), Command(PsArgv, sh.cwd)], [Command(PsArgv, sh.cwd)]);
        if proper.result.Raised? then Step(Raised(proper.result.error), proper.session)
        else Step(Ok(true), proper.session)
  }

  /** A listing that succeeds with nothing but whitespace is not "not
      running" to the image check: the empty tag is outside the allow-list. */
  lemma BlankListingIsUnexpectedImage(sh: Session)
    requires Reply(sh, 0).Succeeded() && AllSpace(Reply(sh, 0).stdout)
    ensures IsProperSqheavenRunning(sh).result == Raised(UnexpectedImageError(""))
  {
  }

  /** Engine up, container listed, image query failing: the status check
      still reports success after three commands. */
  lemma StatusIgnoresFailedImageQuery(sh: Session)
    requires Reply(sh, 0).Succeeded() && View(Reply(sh, 1)).Present?
    requires !Reply(sh, 2).Succeeded()
    ensures CheckSqheavenStatus(sh).result == Ok(true)
    ensures |Since(sh, CheckSqheavenStatus(sh).session)| == 3
  {
  }
}
