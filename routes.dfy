/** The one route of the app's route table that the request views link to. */
module Routes {
  import opened Wrappers
  import opened JsString

  /** The parameters of `/deployment-status/:owner/:repo/:prNumber`. */
  datatype DeploymentParams = DeploymentParams(owner: string, repo: string, prNumber: string)

  /** The path a link to the deployment-status page carries. */
  function DeploymentStatusPath(owner: string, repo: string, prNumber: string): string
  {
    "/deployment-status/" + owner + "/" + repo + "/" + prNumber
  }

  /**
   * Matching a path against `/deployment-status/:owner/:repo/:prNumber`: exactly
   * these five `/`-separated segments, each parameter a non-empty segment.
   * A path that matches is the path built from its parameters.
   */
  function MatchDeploymentStatus(path: string): (r: Option<DeploymentParams>)
    ensures r.Some? ==> path == DeploymentStatusPath(r.value.owner, r.value.repo, r.value.prNumber)
    ensures r.Some? ==> r.value.owner != "" && r.value.repo != "" && r.value.prNumber != ""
    ensures r.Some? ==> '/' !in r.value.owner && '/' !in r.value.repo && '/' !in r.value.prNumber
  {
    var parts := Split(path, '/');
    if |parts| == 5 && parts[0] == "" && parts[1] == "deployment-status"
       && parts[2] != "" && parts[3] != "" && parts[4] != ""
    then
      JoinSplit(path, '/');
      PathIsJoin(parts[2], parts[3], parts[4]);
      assert parts == ["", "deployment-status", parts[2], parts[3], parts[4]];
      Some(DeploymentParams(parts[2], parts[3], parts[4]))
    else None
  }

  /** The path of the deployment-status page is its five segments joined by `/`. */
  lemma PathIsJoin(owner: string, repo: string, prNumber: string)
    ensures DeploymentStatusPath(owner, repo, prNumber) == Join(["", "deployment-status", owner, repo, prNumber], '/')
  {
    var p3 := [repo] + [prNumber];
    var p2 := [owner] + p3;
    var p1 := ["deployment-status"] + p2;
    JoinCons(repo, [prNumber], '/');
    JoinCons(owner, p3, '/');
    JoinCons("deployment-status", p2, '/');
    JoinCons("", p1, '/');
    assert [""] + p1 == ["", "deployment-status", owner, repo, prNumber];
  }

  /** A path built from non-empty, `/`-free parameters matches the route and gives them back. */
  lemma {:induction false} MatchBuiltPath(owner: string, repo: string, prNumber: string)
    requires owner != "" && repo != "" && prNumber != ""
    requires '/' !in owner && '/' !in repo && '/' !in prNumber
    ensures MatchDeploymentStatus(DeploymentStatusPath(owner, repo, prNumber)) == Some(DeploymentParams(owner, repo, prNumber))
  {
    var parts := ["", "deployment-status", owner, repo, prNumber];
    PathIsJoin(owner, repo, prNumber);
    SplitJoin(parts, '/');
  }
}
