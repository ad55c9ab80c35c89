/**
 * The deployment-status page of one infrastructure request: a three-step
 * stepper, a status chip, the requester and the description, from the pull
 * request the page fetches.
 */
module DeploymentStatus {
  import opened Wrappers
  import opened JsString
  import opened GitHubApi
  import opened RequestSearch
  import RequesterPattern
  import MyRequests

  datatype RequestStatus = Running | Success | Error

  /** Where the stepper stands and the request's status. */
  datatype Progress = Progress(activeStep: nat, status: RequestStatus)

  const NoDescription: string := "Sem descrição fornecida."

  /**
   * What a fetched pull request means: merged wins; otherwise a `closed` state
   * is a cancelled request; anything else still waits for approval. The
   * stepper is on its last step exactly when the request has finished.
   */
  function ResponseProgress(d: PullDetail): (p: Progress)
    ensures p.status == RequestStatus.Success <==> d.merged
    ensures p.status == Error <==> !d.merged && d.state == Some("closed")
    ensures p.activeStep == 2 <==> p.status != Running
    ensures p.activeStep == 1 <==> p.status == Running
  {
    if d.merged then Progress(2, RequestStatus.Success)
    else if d.state == Some("closed") then Progress(2, Error)
    else Progress(1, Running)
  }

  /** The stepper's labels. */
  function StepLabels(status: RequestStatus): (labels: seq<string>)
    ensures |labels| == 3
    ensures labels[0] == "Solicitação Enviada" && labels[1] == "Aguardando Aprovação"
    ensures labels[2] == "Cancelado" <==> status == Error
    ensures labels[2] != "Cancelado" ==> labels[2] == "Concluído"
  {
    ["Solicitação Enviada", "Aguardando Aprovação", if status == Error then "Cancelado" else "Concluído"]
  }

  /** Whether step `index` is drawn as failed. */
  function IsErrorStep(status: RequestStatus, index: nat): bool
  {
    status == Error && index == 2
  }

  /** A step is drawn as failed exactly when its label is "Cancelado". */
  lemma ErrorStepIsCancelled(status: RequestStatus, index: nat)
    requires index < 3
    ensures IsErrorStep(status, index) <==> StepLabels(status)[index] == "Cancelado"
  {
    assert |"Solicitação Enviada"| != |"Cancelado"| && |"Aguardando Aprovação"| != |"Cancelado"|;
  }

  function ChipLabel(status: RequestStatus): (text: string)
    ensures text == "Concluído" <==> status == RequestStatus.Success
    ensures text == "Cancelado" <==> status == Error
    ensures text == "Aguardando Aprovação" <==> status == Running
  {
    assert |"Concluído"| == 9 && |"Cancelado"| == 9 && |"Aguardando Aprovação"| == 20;
    if status.Success? then "Concluído"
    else if status.Error? then "Cancelado"
    else "Aguardando Aprovação"
  }

  /** After a response, the chip names the step the stepper stands on. */
  lemma ChipNamesActiveStep(d: PullDetail)
    ensures var p := ResponseProgress(d);
            p.activeStep < 3 && ChipLabel(p.status) == StepLabels(p.status)[p.activeStep]
  {
  }

  /** The description shown: the body, or a fixed text when it is absent or empty. */
  function DescriptionShown(body: Option<string>): (text: string)
    ensures Truthy(body) ==> text == body.value
    ensures !Truthy(body) ==> text == NoDescription
  {
    if Truthy(body) then body.value else NoDescription
  }

  /** The URL the page fetches the pull request from. */
  function PullUrl(backendUrl: string, owner: string, repo: string, prNumber: string): string
  {
    backendUrl + "/api/proxy/github-api/repos/" + owner + "/" + repo + "/pulls/" + prNumber
  }

  /** What the page shows once loaded. */
  datatype DetailView = DetailView(
    chip: string,
    steps: seq<string>,
    errorSteps: seq<bool>,
    activeStep: nat,
    subheader: string,
    requester: string,
    description: string)

  /** The page: a progress bar while loading, the details, or a render error when there is no title to show. */
  datatype Screen = Loading | Detail(view: DetailView) | RenderError

  /**
   * The list page and this page agree on a pull request whose search hit and
   * detail are consistent (GitHub's states are `open` and `closed`, a merged
   * pull request is closed and has a `merged_at`): open is running, merged is a
   * success, closed is an error, and a finished request's chip repeats the
   * list's chip.
   */
  lemma ListAndDetailAgree(item: SearchItem, d: PullDetail)
    requires item.state == "open" || item.state == "closed"
    requires d.state == Some(item.state)
    requires d.merged <==> MergedAtTruthy(item)
    requires d.merged ==> item.state == "closed"
    ensures var p := ResponseProgress(d);
            var s := MyRequests.ClassifyStatus(item);
            && (s == MyRequests.Open <==> p.status == Running)
            && (s == MyRequests.Merged <==> p.status == RequestStatus.Success)
            && (s == MyRequests.Closed <==> p.status == Error)
            && (s != MyRequests.Open ==> MyRequests.ChipLabel(s) == ChipLabel(p.status))
  {
  }

  /** The page's state. */
  class DeploymentStatusPage {
    var prData: Option<PullDetail>
    var loading: bool
    var activeStep: nat
    var requestStatus: RequestStatus

    /** The stepper never goes past its last step. */
    ghost predicate Valid()
      reads this
    {
      activeStep < 3
    }

    constructor ()
      ensures Valid()
      ensures prData.None? && loading && activeStep == 0 && requestStatus == Running
    {
      prData := None;
      loading := true;
      activeStep := 0;
      requestStatus := Running;
    }

    /**
     * `loadData`: fetch the pull request; on a response store it and set the
     * stepper and status from it; when the fetch or the JSON throws, only end
     * loading. Returns the URL fetched.
     */
    method LoadData(backendUrl: string, owner: string, repo: string, prNumber: string,
                    response: Result<PullDetail, string>) returns (url: string)
      requires Valid()
      modifies this
      ensures Valid() && !loading
      ensures url == PullUrl(backendUrl, owner, repo, prNumber)
      ensures response.Failure? ==>
                prData == old(prData) && activeStep == old(activeStep) && requestStatus == old(requestStatus)
      ensures response.Success? ==>
                prData == Some(response.value)
                && Progress(activeStep, requestStatus) == ResponseProgress(response.value)
    {
      url := PullUrl(backendUrl, owner, repo, prNumber);
      if response.Failure? {
        loading := false;
        return;
      }
      var data := response.value;
      prData := Some(data);
      loading := false;
      if data.merged {
        activeStep := 2;
        requestStatus := RequestStatus.Success;
      } else if data.state == Some("closed") {
        activeStep := 2;
        requestStatus := Error;
      } else {
        activeStep := 1;
        requestStatus := Running;
      }
    }

    /**
     * What the page renders: the progress bar while loading; without a pull
     * request or without its title the render throws; otherwise the details.
     */
    function Render(): (screen: Screen)
      requires Valid()
      reads this
      ensures loading <==> screen == Loading
      ensures screen == RenderError <==> !loading && (prData.None? || prData.value.title.None?)
      ensures screen.Detail? ==> |screen.view.steps| == 3 && |screen.view.errorSteps| == 3
      ensures screen.Detail? ==> screen.view.steps == StepLabels(requestStatus) && screen.view.activeStep == activeStep
      ensures screen.Detail? ==> screen.view.activeStep < |screen.view.steps|
      ensures screen.Detail? ==> screen.view.chip == ChipLabel(requestStatus)
      ensures screen.Detail? ==>
                && prData.Some? && prData.value.title.Some?
                && screen.view.subheader == RemoveFirst(prData.value.title.value, InfraTitlePrefix)
                && screen.view.requester == RequesterPattern.Requester(prData.value.body)
                && screen.view.description == DescriptionShown(prData.value.body)
      ensures screen.Detail? ==> forall i :: 0 <= i < 3 ==> (screen.view.errorSteps[i] <==> screen.view.steps[i] == "Cancelado")
    {
      if loading then Loading
      else if prData.None? || prData.value.title.None? then RenderError
      else
        var d := prData.value;
        var status := requestStatus;
        var steps := StepLabels(status);
        ErrorStepIsCancelled(status, 0);
        ErrorStepIsCancelled(status, 1);
        ErrorStepIsCancelled(status, 2);
        Detail(DetailView(
          chip := ChipLabel(status),
          steps := steps,
          errorSteps := seq(3, i requires 0 <= i < 3 => IsErrorStep(status, i)),
          activeStep := activeStep,
          subheader := RemoveFirst(d.title.value, InfraTitlePrefix),
          requester := RequesterPattern.Requester(d.body),
          description := DescriptionShown(d.body)))
    }
  }
}
