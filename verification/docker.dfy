/** What both checks modules share: the fixed names, the argument vectors of
    the queries, the allow-list, and what a container listing says. */
module Docker {
  import opened Text
  import opened Process

  const ContainerName: string := "sqheaven-postgres"
  const DockerImage: string := "sqheaven-pg:latest"

  /** The only image tags a running SQHeaven container may carry. */
  const AllowedImageNames: set<string> := {"sqheaven-pg:latest", "sqheaven-pg:dev", "sqheaven-pg:custom"}

  const InfoArgv: seq<string> := ["docker", "info"]
  const InspectArgv: seq<string> := ["docker", "image", "inspect", DockerImage]
  /** Lists running containers named `sqheaven-postgres`, printing only their image. */
  const PsArgv: seq<string> := ["docker", "ps", "--filter", "name=" + ContainerName, "--format", "{{.Image}}"]

  /** What the `ps` listing reports about the container. */
  datatype ContainerView = ListingFailed | Absent | Present(image: string)

  /** The reading both modules give a `ps` outcome: a failed listing, an
      empty (all-whitespace) listing, or the trimmed image column. */
  function View(o: Outcome): (v: ContainerView)
    ensures v == ListingFailed <==> !o.Succeeded()
    ensures v == Absent <==> o.Succeeded() && AllSpace(o.stdout)
    ensures v.Present? ==> v.image != [] && IsTrimmed(v.image) && v.image == Trim(o.stdout)
  {
    if !o.Succeeded() then ListingFailed
    else if Trim(o.stdout) == [] then Absent
    else Present(Trim(o.stdout))
  }

  /** A listing ending in a newline names the image without it; a listing of
      blank lines names no container. */
  lemma ViewExamples()
    ensures View(Outcome(0, "sqheaven-pg:latest\n", "")) == Present("sqheaven-pg:latest")
    ensures View(Outcome(0, " \n\n", "")) == Absent
    ensures View(Outcome(1, "sqheaven-pg:latest\n", "")) == ListingFailed
  {
    TrimUnique([], "sqheaven-pg:latest", "\n");
    assert [] + "sqheaven-pg:latest" + "\n" == "sqheaven-pg:latest\n";
    assert AllSpace(" \n\n");
  }
}
