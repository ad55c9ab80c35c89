/**
 * The "Minhas Solicitações" page: the signed-in user's infrastructure pull
 * requests as table rows, with a status per row and the KPI totals.
 */
module MyRequests {
  import opened Wrappers
  import opened JsString
  import opened JsArray
  import opened GitHubApi
  import opened RequestSearch
  import opened Routes

  /** The status of a row: the three values `RequestRow.status` may take. */
  datatype Status = Open | Merged | Closed

  datatype RequestRow = RequestRow(
    id: string,
    repository: Option<string>,
    title: string,
    createdAt: string,
    status: Status,
    owner: Option<string>,
    repo: Option<string>,
    number: nat)

  /** The three KPI cards. */
  datatype Stats = Stats(total: nat, open: nat, merged: nat)

  /**
   * A search hit is open when its state is `open`; otherwise merged when it
   * carries a truthy `merged_at`, and closed when it does not.
   */
  function ClassifyStatus(item: SearchItem): (s: Status)
    ensures s == Open <==> item.state == "open"
    ensures s == Merged <==> item.state != "open" && MergedAtTruthy(item)
    ensures s == Closed <==> item.state != "open" && !MergedAtTruthy(item)
  {
    if item.state == "open" then Open
    else if MergedAtTruthy(item) then Merged
    else Closed
  }

  /** The row of one search hit; owner and repository come from segments 4 and 5 of its API URL. */
  function ToRow(item: SearchItem): (row: RequestRow)
    ensures row.repository == row.repo
    ensures row.number == item.number && row.createdAt == item.createdAt
    ensures row.status == ClassifyStatus(item)
    ensures row.id == NatToString(item.id)
    ensures row.title == RemoveFirst(item.title, InfraTitlePrefix)
  {
    var url := item.repositoryUrl;
    RequestRow(
      id := NatToString(item.id),
      repository := Segment(url, '/', 5),
      title := RemoveFirst(item.title, InfraTitlePrefix),
      createdAt := item.createdAt,
      status := ClassifyStatus(item),
      owner := Segment(url, '/', 4),
      repo := Segment(url, '/', 5),
      number := item.number)
  }

  /** `items.map(toRow)`: one row per hit, in the order of the hits. */
  function ToRows(items: seq<SearchItem>): (rows: seq<RequestRow>)
    ensures |rows| == |items|
    ensures forall i :: 0 <= i < |items| ==> rows[i] == ToRow(items[i])
  {
    seq(|items|, i requires 0 <= i < |items| => ToRow(items[i]))
  }

  /** The rows of a search response; a response without `items` gives none. */
  lemma RowsOfResponse(json: SearchJson)
    ensures json.items.None? ==> ToRows(ItemsOrEmpty(json)) == []
    ensures json.items.Some? ==> |ToRows(ItemsOrEmpty(json))| == |json.items.value|
  {
  }

  /**
   * For an API URL `a/b/c/d/owner/repo/...` (at least six `/`-free segments),
   * the row's owner is `owner` and both its repository and repo are `repo`.
   */
  lemma RowOfApiUrl(item: SearchItem, segments: seq<string>)
    requires |segments| >= 6
    requires forall i :: 0 <= i < |segments| ==> '/' !in segments[i]
    requires item.repositoryUrl == Join(segments, '/')
    ensures ToRow(item).owner == Some(segments[4])
    ensures ToRow(item).repo == Some(segments[5]) && ToRow(item).repository == Some(segments[5])
  {
    SplitJoin(segments, '/');
  }

  /**
   * The row title drops the first `Infra: ` only, wherever it stands: a title
   * that starts with it loses that prefix, a title whose first `Infra: ` comes
   * later loses just that occurrence, and a title without it is kept as it is.
   */
  lemma RowTitle(item: SearchItem)
    ensures StartsWith(item.title, InfraTitlePrefix) ==> ToRow(item).title == item.title[|InfraTitlePrefix|..]
    ensures forall i: nat ::
              (OccursAt(item.title, InfraTitlePrefix, i) && forall j: nat :: j < i ==> !OccursAt(item.title, InfraTitlePrefix, j))
              ==> ToRow(item).title == item.title[..i] + item.title[i + |InfraTitlePrefix|..]
    ensures (forall j: nat :: !OccursAt(item.title, InfraTitlePrefix, j)) ==> ToRow(item).title == item.title
  {
    if StartsWith(item.title, InfraTitlePrefix) {
      RemoveFirstOfPrefix(item.title, InfraTitlePrefix);
    }
  }

  /** The number of rows with status `s`: `rows.filter(r => r.status === s).length`. */
  function CountStatus(rows: seq<RequestRow>, s: Status): nat
  {
    |Filter(rows, (r: RequestRow) => r.status == s)|
  }

  function ComputeStats(rows: seq<RequestRow>): (stats: Stats)
    ensures stats.total == |rows|
    ensures stats.open == CountStatus(rows, Open) && stats.merged == CountStatus(rows, Merged)
  {
    Stats(|rows|, CountStatus(rows, Open), CountStatus(rows, Merged))
  }

  /** Every row is counted under exactly one status, so the three counts add up to the total. */
  lemma {:induction false} CountsAddUp(rows: seq<RequestRow>)
    ensures CountStatus(rows, Open) + CountStatus(rows, Merged) + CountStatus(rows, Closed) == |rows|
  {
    if rows != [] {
      CountsAddUp(rows[1..]);
    }
  }

  /** The open and merged KPIs never exceed the total. */
  lemma StatsBounded(rows: seq<RequestRow>)
    ensures ComputeStats(rows).open + ComputeStats(rows).merged <= ComputeStats(rows).total
  {
    CountsAddUp(rows);
  }

  /** The label of the status chip. */
  function ChipLabel(s: Status): (text: string)
    ensures text == "Em Andamento" <==> s == Open
    ensures text == "Concluído" <==> s == Merged
    ensures text == "Cancelado" <==> s == Closed
  {
    match s
    case Open => "Em Andamento"
    case Merged => "Concluído"
    case Closed => "Cancelado"
  }

  /** The row's link: `/deployment-status/<owner>/<repo>/<number>`, `undefined` for a missing segment. */
  function RowLink(row: RequestRow): string
  {
    DeploymentStatusPath(Show(row.owner), Show(row.repo), NatToString(row.number))
  }

  /**
   * The link of every row built from a hit whose owner and repository segments
   * are not empty is matched by the deployment-status route, whose parameters
   * are then the row's owner, repo and number.
   */
  lemma RowLinkMatchesRoute(item: SearchItem)
    requires Show(ToRow(item).owner) != "" && Show(ToRow(item).repo) != ""
    ensures MatchDeploymentStatus(RowLink(ToRow(item)))
            == Some(DeploymentParams(Show(ToRow(item).owner), Show(ToRow(item).repo), NatToString(item.number)))
  {
    var row := ToRow(item);
    NatToStringHasNoSlash(item.number);
    assert '/' !in Show(row.owner) && '/' !in Show(row.repo);
    MatchBuiltPath(Show(row.owner), Show(row.repo), NatToString(item.number));
  }

  /** The page's state: the rows, the loading flag and the KPI totals. */
  class MyRequestsPage {
    var data: seq<RequestRow>
    var loading: bool
    var stats: Stats

    /** The totals shown are always those of the rows shown. */
    ghost predicate Valid()
      reads this
    {
      stats == ComputeStats(data)
    }

    constructor ()
      ensures Valid()
      ensures data == [] && loading && stats == Stats(0, 0, 0)
    {
      data := [];
      loading := true;
      stats := Stats(0, 0, 0);
    }

    /**
     * The rows a load produces, or `None` when a step threw (identity, the
     * request or its JSON). The response's `ok` flag is not looked at.
     */
    static function LoadedRows(identity: Result<string, string>,
                               response: Result<HttpResponse<SearchJson>, string>): Option<seq<RequestRow>>
    {
      if identity.Failure? || response.Failure? || response.value.json.Failure? then None
      else Some(ToRows(ItemsOrEmpty(response.value.json.value)))
    }

    /**
     * `fetchRequests`: resolve the user, search for the user's requests and
     * replace rows and totals with the result; on any thrown error rows and
     * totals are left as they were. Loading ends either way. Returns the query
     * sent, if the identity step got that far.
     */
    method FetchRequests(identity: Result<string, string>, lookup: CatalogLookup,
                         response: Result<HttpResponse<SearchJson>, string>) returns (query: Option<string>)
      requires Valid()
      modifies this
      ensures Valid() && !loading
      ensures identity.Failure? ==> query.None?
      ensures identity.Success? ==> query == Some(SearchQuery(CreatedDesc, ResolveUser(identity.value, lookup)))
      ensures LoadedRows(identity, response).None? ==> data == old(data) && stats == old(stats)
      ensures LoadedRows(identity, response).Some? ==> data == LoadedRows(identity, response).value
    {
      query := None;
      if identity.Failure? {
        loading := false;
        return;
      }
      var userEntityRef := identity.value;
      var currentUser := Show(DefaultUser(userEntityRef));
      if lookup.Entity? {
        currentUser := lookup.name;
      }
      query := Some(SearchQuery(CreatedDesc, currentUser));
      if response.Failure? || response.value.json.Failure? {
        loading := false;
        return;
      }
      var items := ItemsOrEmpty(response.value.json.value);
      var rows := ToRows(items);
      data := rows;
      stats := ComputeStats(rows);
      loading := false;
    }
  }

  /** Whatever has been loaded, the open and merged KPIs shown never exceed the total shown. */
  lemma ShownStatsBounded(page: MyRequestsPage)
    requires page.Valid()
    ensures page.stats.open + page.stats.merged <= page.stats.total
  {
    StatsBounded(page.data);
  }
}
