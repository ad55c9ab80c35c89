/**
 * The home-page card "Minhas Solicitações": the signed-in user's pull requests
 * whose title starts with `Infra: `, each with a status and a link to GitHub.
 */
module PullRequestsCard {
  import opened Wrappers
  import opened JsString
  import opened JsArray
  import opened GitHubApi
  import opened RequestSearch
  import MyRequests

  /** The message of the error thrown for a response that is not ok. */
  const FetchErrorMessage: string := "Falha ao buscar PRs"

  predicate IsInfraRequest(pr: SearchItem)
  {
    StartsWith(pr.title, InfraTitlePrefix)
  }

  /** The pull requests the card lists: `allPrs.filter(pr => pr.title.startsWith("Infra: "))`. */
  function InfraRequests(items: seq<SearchItem>): (kept: seq<SearchItem>)
    ensures forall i :: 0 <= i < |kept| ==> IsInfraRequest(kept[i]) && kept[i] in items
    ensures forall i :: 0 <= i < |items| && IsInfraRequest(items[i]) ==> items[i] in kept
  {
    Filter(items, IsInfraRequest)
  }

  /** The kept list is the order-preserving subsequence of the infrastructure requests, and keeping again changes nothing. */
  lemma InfraRequestsOrderAndIdempotence(items: seq<SearchItem>)
    ensures IsSubsequence(InfraRequests(items), items)
    ensures InfraRequests(InfraRequests(items)) == InfraRequests(items)
  {
    FilterIsSubsequence(items, IsInfraRequest);
    FilterIdempotent(items, IsInfraRequest);
  }

  datatype RepoDetails = RepoDetails(owner: Option<string>, repo: Option<string>)

  /** `getRepoDetails`: segments 4 and 5 of the API URL split on `/`. */
  function GetRepoDetails(apiUrl: string): (d: RepoDetails)
    ensures d.owner.Some? ==> '/' !in d.owner.value
    ensures d.repo.Some? ==> '/' !in d.repo.value && d.owner.Some?
  {
    RepoDetails(Segment(apiUrl, '/', 4), Segment(apiUrl, '/', 5))
  }

  /** Owner and repo are segments 4 and 5 of any URL made of `/`-free segments. */
  lemma GetRepoDetailsOfJoin(segments: seq<string>)
    requires |segments| >= 6
    requires forall i :: 0 <= i < |segments| ==> '/' !in segments[i]
    ensures GetRepoDetails(Join(segments, '/')) == RepoDetails(Some(segments[4]), Some(segments[5]))
  {
    SplitJoin(segments, '/');
  }

  /**
   * The documented example: the URL `https://api.github.com/repos/TalesBusiness/infra-pessoal/issues/123`,
   * i.e. these eight segments joined by `/`, gives owner `TalesBusiness` and repo `infra-pessoal`.
   */
  lemma GetRepoDetailsExample(apiUrl: string)
    requires apiUrl == Join(["https:", "", "api.github.com", "repos", "TalesBusiness", "infra-pessoal", "issues", "123"], '/')
    ensures GetRepoDetails(apiUrl) == RepoDetails(Some("TalesBusiness"), Some("infra-pessoal"))
  {
    var segments := ["https:", "", "api.github.com", "repos", "TalesBusiness", "infra-pessoal", "issues", "123"];
    forall i | 0 <= i < |segments|
      ensures '/' !in segments[i]
    {
    }
    GetRepoDetailsOfJoin(segments);
  }

  /** `getStatusConfig(pr).text`: open wins whatever `merged_at` says. */
  function StatusText(pr: SearchItem): (text: string)
    ensures pr.state == "open" ==> text == "Em andamento"
    ensures pr.state != "open" && MergedAtTruthy(pr) ==> text == "Concluído"
    ensures pr.state != "open" && !MergedAtTruthy(pr) ==> text == "Cancelado"
  {
    if pr.state == "open" then "Em andamento"
    else if MergedAtTruthy(pr) then "Concluído"
    else "Cancelado"
  }

  /**
   * The card and the requests page classify a pull request alike: the card's
   * text is the page's chip label, except that the card writes "Em andamento"
   * where the page writes "Em Andamento".
   */
  lemma StatusTextAgreesWithRequestsPage(pr: SearchItem)
    ensures MyRequests.ClassifyStatus(pr) != MyRequests.Open ==> StatusText(pr) == MyRequests.ChipLabel(MyRequests.ClassifyStatus(pr))
    ensures MyRequests.ClassifyStatus(pr) == MyRequests.Open <==> StatusText(pr) == "Em andamento"
  {
  }

  /** The title shown: `pr.title.replace('Infra: ', '')`. */
  function DisplayedTitle(pr: SearchItem): string
  {
    RemoveFirst(pr.title, InfraTitlePrefix)
  }

  /** Every listed pull request is shown with its title minus the leading seven-character `Infra: `. */
  lemma DisplayedTitleOfListed(items: seq<SearchItem>, i: nat)
    requires i < |InfraRequests(items)|
    ensures DisplayedTitle(InfraRequests(items)[i]) == InfraRequests(items)[i].title[7..]
  {
    RemoveFirstOfPrefix(InfraRequests(items)[i].title, InfraTitlePrefix);
  }

  /** The item's link: `https://github.com/<owner>/<repo>/pull/<number>`. */
  function PullRequestLink(pr: SearchItem): string
  {
    var d := GetRepoDetails(pr.repositoryUrl);
    "https://github.com/" + Show(d.owner) + "/" + Show(d.repo) + "/pull/" + NatToString(pr.number)
  }

  /** The GitHub link is its seven segments joined by `/`. */
  lemma GitHubLinkIsJoin(owner: string, repo: string, number: string)
    ensures "https://github.com/" + owner + "/" + repo + "/pull/" + number
            == Join(["https:", "", "github.com", owner, repo, "pull", number], '/')
  {
    var segments := ["https:", "", "github.com", owner, repo, "pull", number];
    var p2, p3, p4, p5 := segments[2..], segments[3..], segments[4..], segments[5..];
    assert p5[1..] == [number] && p4[1..] == p5 && p3[1..] == p4 && p2[1..] == p3 && segments[1..][1..] == p2;
    assert Join(p5, '/') == "pull/" + number;
    assert Join(p4, '/') == repo + "/" + "pull/" + number;
    assert Join(p3, '/') == owner + "/" + (repo + "/" + "pull/" + number);
    assert Join(p2, '/') == "github.com" + "/" + (owner + "/" + (repo + "/" + "pull/" + number));
    assert "https:" + "/" + ("" + "/" + "github.com" + "/") == "https://github.com/";
  }

  /** Read back as a URL, the link names the hit's owner, repository and number, in that order. */
  lemma PullRequestLinkSegments(pr: SearchItem)
    ensures var d := GetRepoDetails(pr.repositoryUrl);
            Split(PullRequestLink(pr), '/')
            == ["https:", "", "github.com", Show(d.owner), Show(d.repo), "pull", NatToString(pr.number)]
  {
    var d := GetRepoDetails(pr.repositoryUrl);
    var o, r, n := Show(d.owner), Show(d.repo), NatToString(pr.number);
    NatToStringHasNoSlash(pr.number);
    GitHubLinkIsJoin(o, r, n);
    var segments := ["https:", "", "github.com", o, r, "pull", n];
    forall i | 0 <= i < |segments|
      ensures '/' !in segments[i]
    {
    }
    SplitJoin(segments, '/');
  }

  /** "Nenhuma solicitação encontrada." shows when not loading, with no pull requests and no (truthy) error. */
  predicate ShowsEmptyState(loading: bool, prs: seq<SearchItem>, error: Option<string>)
  {
    !loading && |prs| == 0 && !Truthy(error)
  }

  /**
   * The error message a load ends with, if a step threw: the identity or
   * network error's own message, `Falha ao buscar PRs` for a response that is
   * not ok, or the JSON error's message.
   */
  function LoadError(identity: Result<string, string>,
                     response: Result<HttpResponse<SearchJson>, string>): (e: Option<string>)
    ensures identity.Success? && response.Success? && !response.value.ok ==> e == Some(FetchErrorMessage)
    ensures e.None? <==> identity.Success? && response.Success? && response.value.ok && response.value.json.Success?
  {
    if identity.Failure? then Some(identity.error)
    else if response.Failure? then Some(response.error)
    else if !response.value.ok then Some(FetchErrorMessage)
    else if response.value.json.Failure? then Some(response.value.json.error)
    else None
  }

  /** The pull requests a load lists, when no step threw. */
  function LoadedPrs(identity: Result<string, string>,
                     response: Result<HttpResponse<SearchJson>, string>): (r: Option<seq<SearchItem>>)
    ensures r.Some? <==> LoadError(identity, response).None?
  {
    if LoadError(identity, response).Some? then None
    else Some(InfraRequests(ItemsOrEmpty(response.value.json.value)))
  }

  /**
   * Right after a first load (no pull requests, no error before it), the empty
   * state shows exactly when the load succeeded without an infrastructure
   * request, or threw an error whose message is empty.
   */
  lemma EmptyStateAfterFirstLoad(identity: Result<string, string>,
                                 response: Result<HttpResponse<SearchJson>, string>)
    ensures var prs := if LoadedPrs(identity, response).Some? then LoadedPrs(identity, response).value else [];
            ShowsEmptyState(false, prs, LoadError(identity, response))
            <==> (LoadError(identity, response).None? && |prs| == 0) || LoadError(identity, response) == Some("")
  {
  }

  /** The card's state: the listed pull requests, the loading flag and the error message. */
  class MyPullRequestsCard {
    var prs: seq<SearchItem>
    var loading: bool
    var error: Option<string>

    /** Only infrastructure requests are ever listed. */
    ghost predicate Valid()
      reads this
    {
      forall i :: 0 <= i < |prs| ==> IsInfraRequest(prs[i])
    }

    constructor ()
      ensures Valid()
      ensures prs == [] && loading && error.None?
    {
      prs := [];
      loading := true;
      error := None;
    }

    /**
     * `fetchUserAndPRs`: resolve the user, search, and list the infrastructure
     * requests; a thrown error sets `error` and leaves the list alone; a
     * success does not clear an earlier error. Loading ends either way.
     */
    method FetchUserAndPRs(identity: Result<string, string>, lookup: CatalogLookup,
                           response: Result<HttpResponse<SearchJson>, string>) returns (query: Option<string>)
      requires Valid()
      modifies this
      ensures Valid() && !loading
      ensures identity.Failure? ==> query.None?
      ensures identity.Success? ==> query == Some(SearchQuery(UpdatedDesc, ResolveUser(identity.value, lookup)))
      ensures LoadError(identity, response).Some? ==> error == LoadError(identity, response) && prs == old(prs)
      ensures LoadError(identity, response).None? ==> error == old(error) && prs == LoadedPrs(identity, response).value
    {
      query := None;
      if identity.Failure? {
        error := Some(identity.error);
        loading := false;
        return;
      }
      var userEntityRef := identity.value;
      var currentUser := Show(DefaultUser(userEntityRef));
      if lookup.Entity? {
        currentUser := lookup.name;
      }
      query := Some(SearchQuery(UpdatedDesc, currentUser));
      if response.Failure? {
        error := Some(response.error);
      } else if !response.value.ok {
        error := Some(FetchErrorMessage);
      } else if response.value.json.Failure? {
        error := Some(response.value.json.error);
      } else {
        var allPrs := ItemsOrEmpty(response.value.json.value);
        prs := InfraRequests(allPrs);
      }
      loading := false;
    }
  }
}
