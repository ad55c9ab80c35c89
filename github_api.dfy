/**
 * The JSON the pages receive from the GitHub REST API (through the portal's
 * proxy), as input records. Only the fields the pages read are kept; a field
 * the API may omit or send as `null` is an `Option`.
 */
module GitHubApi {
  import opened Wrappers
  import opened JsString

  /** The `pull_request` object of an issue-search hit. */
  datatype PullRequestRef = PullRequestRef(mergedAt: Option<string>)

  /** One hit of `GET /search/issues`. */
  datatype SearchItem = SearchItem(
    id: nat,
    number: nat,
    title: string,
    htmlUrl: string,
    repositoryUrl: string,
    createdAt: string,
    state: string,
    pullRequest: Option<PullRequestRef>)

  /** The body of a search response; `items` is absent in an error body. */
  datatype SearchJson = SearchJson(items: Option<seq<SearchItem>>)

  /** The body of `GET /repos/{owner}/{repo}/pulls/{number}`; an absent `merged` reads as false. */
  datatype PullDetail = PullDetail(
    title: Option<string>,
    body: Option<string>,
    merged: bool,
    state: Option<string>,
    htmlUrl: Option<string>)

  /** A completed HTTP exchange: its `ok` flag and what `response.json()` gave or threw. */
  datatype HttpResponse<J> = HttpResponse(ok: bool, json: Result<J, string>)

  /** `pr.pull_request?.merged_at` is truthy. */
  predicate MergedAtTruthy(item: SearchItem)
  {
    item.pullRequest.Some? && Truthy(item.pullRequest.value.mergedAt)
  }

  /** `json.items || []`. */
  function ItemsOrEmpty(json: SearchJson): (items: seq<SearchItem>)
    ensures json.items.None? ==> items == []
    ensures json.items.Some? ==> items == json.items.value
  {
    match json.items
    case Some(xs) => xs
    case None => []
  }
}
