# Infrastructure request tracking — a Dafny model

The developer portal lets engineers request infrastructure through templates
that open pull requests titled `Infra: …` in the `TalesBusiness` GitHub
organisation, with a line `Solicitante: @<user>` in the description. Three
views track those requests:

- **Minhas Solicitações** (`MyRequestsPage`): searches the user's pull
  requests, maps each hit to a table row (owner and repository from the API
  URL, title without `Infra: `, status open / merged / closed), counts the KPI
  totals and links every row to `/deployment-status/<owner>/<repo>/<number>`.
- **The home-page card** (`MyPullRequestsCard`): the same search, sorted by
  last update instead of creation, kept to the
  titles that start with `Infra: `, each with a status text and a link to the
  pull request on GitHub, an error message and an empty state.
- **Deployment status** (`DeploymentStatusPage`): one pull request as a
  three-step stepper, a status chip, the requester read from the description
  and the description itself.

The model states these as Dafny functions over the JSON the pages receive
(input records in `GitHubApi`), and the component state as classes whose
methods apply one load: `MyRequests.MyRequestsPage`,
`PullRequestsCard.MyPullRequestsCard` and
`DeploymentStatus.DeploymentStatusPage`. The JavaScript operations the pages
use are written out with their edge cases (`JsString`, `JsArray`): `split('/')`
and indexing past the end (`undefined`, shown as the text `undefined` in a
template string), `replace('Infra: ', '')` removing only the first occurrence,
`startsWith`, `filter`, decimal rendering of numbers and truthiness of optional
strings. The requester pattern `Solicitante:.*(?:user:default\/|@)([\w-]+)`
(flag `i`) is a dedicated scanner (`RequesterPattern`) whose result is proved
to be the leftmost match with the greedy `.*`, i.e. the last marker on the
line.

Files: `wrappers.dfy`, `js_string.dfy`, `js_array.dfy`, `github_api.dfy`,
`request_search.dfy`, `routes.dfy`, `my_requests.dfy`,
`pull_requests_card.dfy`, `requester_pattern.dfy`, `deployment_status.dfy`.

## Model

| member | source | states |
|---|---|---|
| JsString.Split | packages/app/src/components/requests/MyRequestsPage.tsx:127 | `split('/')` always yields at least one part and no part holds the separator |
| JsString.SplitJoin | packages/app/src/components/requests/MyRequestsPage.tsx:127 | splitting separator-free parts joined by `/` gives exactly those parts back |
| JsString.JoinSplit | packages/app/src/components/requests/MyRequestsPage.tsx:127 | joining the parts of a split gives the original string back |
| JsString.Segment | packages/app/src/components/requests/MyRequestsPage.tsx:130 | `parts[i]` is `undefined` exactly when there are at most `i` parts; a present segment holds no `/` |
| JsString.IndexOf | packages/app/src/components/requests/MyRequestsPage.tsx:131 | the index found is an occurrence and no earlier index is one; none found means no occurrence anywhere |
| JsString.RemoveFirst | packages/app/src/components/requests/MyRequestsPage.tsx:131 | `replace(pat, '')` cuts out only the first occurrence, keeping what precedes and follows it; no occurrence leaves the string unchanged |
| JsString.RemoveFirstOfPrefix | packages/app/src/components/home/MyPullRequestsCard.tsx:181 | a string starting with the pattern loses exactly that prefix |
| JsString.NatToString | packages/app/src/components/requests/MyRequestsPage.tsx:129 | `String(n)` is a non-empty string of decimal digits with no leading zero (for the integers below 2^53 that ids and numbers take) |
| JsString.ParseNatToString | packages/app/src/components/requests/MyRequestsPage.tsx:175 | the number written into a link reads back as the same number |
| JsArray.Filter | packages/app/src/components/home/MyPullRequestsCard.tsx:91-93 | `filter` keeps every element that satisfies the test and only such elements, never growing the array |
| JsArray.FilterIsSubsequence | packages/app/src/components/home/MyPullRequestsCard.tsx:91-93 | the kept elements appear in the input's order |
| JsArray.FilterIdempotent | packages/app/src/components/home/MyPullRequestsCard.tsx:91-93 | filtering an already filtered array changes nothing |
| JsArray.FilterAppend | packages/app/src/components/home/MyPullRequestsCard.tsx:91-93 | filtering a concatenation is the concatenation of the filtered halves |
| GitHubApi.ItemsOrEmpty | packages/app/src/components/requests/MyRequestsPage.tsx:124 | `json.items \|\| []`: a body without `items` gives no items |
| RequestSearch.ResolveUser | packages/app/src/components/requests/MyRequestsPage.tsx:111-116 | the catalog entity's name when the lookup returned one; otherwise segment 1 of the entity ref (`DefaultUser`; shown as `undefined` by `JsString.Show` when absent), also after a lookup failure |
| RequestSearch.DefaultUserOfRef | packages/app/src/components/home/MyPullRequestsCard.tsx:61-62 | for a ref `namespace/name` the default user (`DefaultUser`, `split('/')[1]`) is `name`, whatever a failed or empty lookup did |
| RequestSearch.ResolveUserExample | packages/app/src/components/home/MyPullRequestsCard.tsx:61-62 | `user:default/tales` gives `tales` when the catalog lookup finds nothing or fails |
| RequestSearch.SearchTerm | packages/app/src/components/requests/MyRequestsPage.tsx:119 | the term is `Solicitante: @` followed by the user |
| RequestSearch.SearchQuery | packages/app/src/components/requests/MyRequestsPage.tsx:119-120 | the query is exactly `is:pr org:TalesBusiness sort:…` followed by the search term in double quotes: it starts with the qualifiers, ends with the quoted term, and is as long as the two together |
| Routes.MatchDeploymentStatus | packages/app/src/App.tsx:120 | a path the route matches is the path built (`DeploymentStatusPath`) from its three non-empty, `/`-free parameters |
| Routes.MatchBuiltPath | packages/app/src/App.tsx:120 | a path built from non-empty `/`-free parameters matches the route and yields them back |
| MyRequests.ClassifyStatus | packages/app/src/components/requests/MyRequestsPage.tsx:133 | open iff state is `open`; merged iff not open and `merged_at` truthy (`GitHubApi.MergedAtTruthy`); closed otherwise |
| MyRequests.ToRow | packages/app/src/components/requests/MyRequestsPage.tsx:126-137 | `repository` and `repo` are always the same segment; the status is the hit's classification; the title is `replace('Infra: ', '')` (`RemoveFirst`); the id is `String(id)`; number and creation date are copied |
| MyRequests.ToRows | packages/app/src/components/requests/MyRequestsPage.tsx:126-138 | one row per search hit, in the hits' order |
| MyRequests.RowsOfResponse | packages/app/src/components/requests/MyRequestsPage.tsx:124-138 | a response without `items` yields zero rows; otherwise as many rows as items |
| MyRequests.RowOfApiUrl | packages/app/src/components/requests/MyRequestsPage.tsx:127-135 | for an API URL of `/`-free segments, owner is segment 4 and repository and repo are segment 5 |
| MyRequests.RowTitle | packages/app/src/components/requests/MyRequestsPage.tsx:131 | only the first `Infra: ` is removed, wherever it stands, and the rest is kept: a title starting with it loses that prefix, a title whose first occurrence is at index i becomes `title[..i] + title[i+7..]`, and a title without it is unchanged |
| MyRequests.ComputeStats | packages/app/src/components/requests/MyRequestsPage.tsx:141-145 | total is the number of rows; open and merged count the rows with that status (`CountStatus`, the `filter(...).length` of lines 143-144) |
| MyRequests.CountsAddUp | packages/app/src/components/requests/MyRequestsPage.tsx:141-145 | the open, merged and closed counts add up to the total |
| MyRequests.StatsBounded | packages/app/src/components/requests/MyRequestsPage.tsx:141-145 | open + merged never exceeds total |
| MyRequests.ChipLabel | packages/app/src/components/requests/MyRequestsPage.tsx:187-190 | "Em Andamento" iff open, "Concluído" iff merged, "Cancelado" iff closed |
| MyRequests.RowLinkMatchesRoute | packages/app/src/components/requests/MyRequestsPage.tsx:174-176 | the link of each row (`RowLink`, line 175) whose owner and repo text (`JsString.Show` of the segments, `undefined` when absent) is non-empty is matched by the deployment-status route with that owner, repo and number as parameters |
| MyRequests.MyRequestsPage.constructor | packages/app/src/components/requests/MyRequestsPage.tsx:102-104 | no rows, loading, all totals zero |
| MyRequests.MyRequestsPage.FetchRequests | packages/app/src/components/requests/MyRequestsPage.tsx:106-155 | the query sent; rows (`MyRequestsPage.LoadedRows`) and totals replaced on success and kept when a step throws; loading ends either way; totals stay those of the rows |
| MyRequests.ShownStatsBounded | packages/app/src/components/requests/MyRequestsPage.tsx:140-145 | the KPIs the page shows satisfy open + merged ≤ total in every reachable state |
| PullRequestsCard.InfraRequests | packages/app/src/components/home/MyPullRequestsCard.tsx:88-93 | every kept pull request's title starts with `Infra: ` (`IsInfraRequest`, via `JsString.StartsWith`) and every such pull request is kept |
| PullRequestsCard.InfraRequestsOrderAndIdempotence | packages/app/src/components/home/MyPullRequestsCard.tsx:88-93 | the kept list is an order-preserving subsequence and filtering it again changes nothing |
| PullRequestsCard.GetRepoDetails | packages/app/src/components/home/MyPullRequestsCard.tsx:108-112 | owner and repo are free of `/`, and a repo segment implies an owner segment |
| PullRequestsCard.GetRepoDetailsOfJoin | packages/app/src/components/home/MyPullRequestsCard.tsx:108-112 | for any URL of at least six `/`-free segments, owner is segment 4 and repo is segment 5 |
| PullRequestsCard.GetRepoDetailsExample | packages/app/src/components/home/MyPullRequestsCard.tsx:108-112 | the documented URL gives owner `TalesBusiness` and repo `infra-pessoal` |
| PullRequestsCard.StatusText | packages/app/src/components/home/MyPullRequestsCard.tsx:115-134 | "Em andamento" for an open state whatever `merged_at` says; else "Concluído" with a truthy `merged_at` (`GitHubApi.MergedAtTruthy`), else "Cancelado" |
| PullRequestsCard.StatusTextAgreesWithRequestsPage | packages/app/src/components/home/MyPullRequestsCard.tsx:115-134 | the card's text equals the requests page's chip label except for the capital A of "Em Andamento" |
| PullRequestsCard.DisplayedTitleOfListed | packages/app/src/components/home/MyPullRequestsCard.tsx:181 | every listed pull request is shown (`DisplayedTitle`) with its title minus the leading seven characters |
| PullRequestsCard.PullRequestLinkSegments | packages/app/src/components/home/MyPullRequestsCard.tsx:158-167 | the link (`PullRequestLink`, line 167) splits into `https:`, ``, `github.com`, owner, repo, `pull`, number |
| PullRequestsCard.LoadError | packages/app/src/components/home/MyPullRequestsCard.tsx:83-101 | a non-ok response ends with "Falha ao buscar PRs"; no error exactly when identity, request and JSON all succeed |
| PullRequestsCard.LoadedPrs | packages/app/src/components/home/MyPullRequestsCard.tsx:85-95 | pull requests are listed exactly when no error is raised |
| PullRequestsCard.EmptyStateAfterFirstLoad | packages/app/src/components/home/MyPullRequestsCard.tsx:148 | after a first load the empty state (`ShowsEmptyState`) shows iff it succeeded with no infrastructure request, or threw an empty message |
| PullRequestsCard.MyPullRequestsCard.constructor | packages/app/src/components/home/MyPullRequestsCard.tsx:48-50 | no pull requests, loading, no error |
| PullRequestsCard.MyPullRequestsCard.FetchUserAndPRs | packages/app/src/components/home/MyPullRequestsCard.tsx:56-103 | the query sent; on an error the message is stored and the list kept; on success the list is replaced and an earlier error kept; loading ends either way; only `Infra: ` titles are ever listed |
| RequesterPattern.MarkerEnd | packages/app/src/components/deployment/DeploymentStatusPage.tsx:69 | the group starts after `user:default/` or `@`, inside the description |
| RequesterPattern.LineEnd | packages/app/src/components/deployment/DeploymentStatusPage.tsx:69 | the first line terminator at or after a position, where `.*` must stop |
| RequesterPattern.LastMarker | packages/app/src/components/deployment/DeploymentStatusPage.tsx:69 | the rightmost usable marker in a range, none when there is none |
| RequesterPattern.CandidatesOfStart | packages/app/src/components/deployment/DeploymentStatusPage.tsx:69 | a marker is usable for a `Solicitante:` exactly when it lies later on the same line |
| RequesterPattern.FindFrom | packages/app/src/components/deployment/DeploymentStatusPage.tsx:69 | trying starts in order finds the first start that has a match and its last marker |
| RequesterPattern.RequesterMatch | packages/app/src/components/deployment/DeploymentStatusPage.tsx:69 | the match is the leftmost `Solicitante:` with a marker on its line, with the rightmost such marker; none iff no match exists |
| RequesterPattern.WordRun | packages/app/src/components/deployment/DeploymentStatusPage.tsx:69 | the run of `[A-Za-z0-9_-]` is maximal |
| RequesterPattern.Captured | packages/app/src/components/deployment/DeploymentStatusPage.tsx:69 | group 1 is a non-empty, maximal run of `[A-Za-z0-9_-]` right after the marker |
| RequesterPattern.Requester | packages/app/src/components/deployment/DeploymentStatusPage.tsx:67-71 | "Desconhecido" for an absent or empty body (not `JsString.Truthy`) or no match; the captured name otherwise |
| RequesterPattern.RequesterOfSearchTerm | packages/app/src/components/deployment/DeploymentStatusPage.tsx:67-71 | for a non-empty user made of `[A-Za-z0-9_-]`, a description `Solicitante: @<user>` shows `<user>`, the user the request views search for |
| RequesterPattern.RequesterStopsAtDot | packages/app/src/components/deployment/DeploymentStatusPage.tsx:67-71 | for a user `<first>.<rest>` (both parts word characters, `<first>` non-empty) the same description shows only `<first>` |
| DeploymentStatus.ResponseProgress | packages/app/src/components/deployment/DeploymentStatusPage.tsx:82-91 | success iff merged; error iff not merged and state `closed`; step 2 iff finished, step 1 iff running |
| DeploymentStatus.StepLabels | packages/app/src/components/deployment/DeploymentStatusPage.tsx:103-107 | three labels, the first two fixed, the third "Cancelado" iff the status is error and "Concluído" otherwise |
| DeploymentStatus.ErrorStepIsCancelled | packages/app/src/components/deployment/DeploymentStatusPage.tsx:150-151 | a step is drawn as failed (`IsErrorStep`) exactly when its label is "Cancelado", i.e. index 2 with status error |
| DeploymentStatus.ChipLabel | packages/app/src/components/deployment/DeploymentStatusPage.tsx:109-116 | success → "Concluído", error → "Cancelado", running → "Aguardando Aprovação", each iff |
| DeploymentStatus.ChipNamesActiveStep | packages/app/src/components/deployment/DeploymentStatusPage.tsx:82-116 | after a response the chip label is the label of the active step (the third in terminal states) |
| DeploymentStatus.DescriptionShown | packages/app/src/components/deployment/DeploymentStatusPage.tsx:191 | the body when truthy (`JsString.Truthy`: present and non-empty), otherwise "Sem descrição fornecida." |
| DeploymentStatus.ListAndDetailAgree | packages/app/src/components/deployment/DeploymentStatusPage.tsx:82-91 | for consistent GitHub data, open/merged/closed on the list are running/success/error here, with the same chip label when finished |
| DeploymentStatus.DeploymentStatusPage.constructor | packages/app/src/components/deployment/DeploymentStatusPage.tsx:62-65 | no data, loading, step 0, running |
| DeploymentStatus.DeploymentStatusPage.LoadData | packages/app/src/components/deployment/DeploymentStatusPage.tsx:74-96 | the URL fetched (`PullUrl`, line 77); a response is stored and fixes step and status; a thrown error only ends loading |
| DeploymentStatus.DeploymentStatusPage.Render | packages/app/src/components/deployment/DeploymentStatusPage.tsx:100-163 | for a valid page (step below 3): progress iff loading; a render error iff not loading and there is no pull request or no title; otherwise the step labels of the status, the active step (an index into those labels), failed flags marking exactly the "Cancelado" step, the status chip, the title without `Infra: `, the requester read from the body and the body or its fallback |

## Left out

- Rendering, styles, icons, Material-UI and framework components; the table's search and paging options.
- The identity API, the catalog API, `fetch` and `response.json()`: their outcomes are inputs (`Result` values carrying the thrown message, `CatalogLookup`).
- `config.getString('backend.baseUrl')` throwing; the backend URL is an input where it is used.
- `encodeURIComponent` of the query: the methods return the query before encoding.
- `new Date(...)` and `toLocaleDateString('pt-BR')`: the creation date is carried as the API's string.
- `console.error` logging, React effect scheduling, re-renders and dependency arrays.
- Search hits without `title` or `repository_url`: the input records always carry both. On the requests page the `map` would throw (packages/app/src/components/requests/MyRequestsPage.tsx:126-131); on the card a missing `title` throws in the `filter`'s `startsWith` (packages/app/src/components/home/MyPullRequestsCard.tsx:92) and a missing `repository_url` throws in `getRepoDetails` while rendering (packages/app/src/components/home/MyPullRequestsCard.tsx:110, called at line 158).
- Non-integer or negative `id`/`number` values: they are natural numbers here.
- JsString.NatToString: JavaScript prints every digit only for integers below 10^21 and holds integers exactly only below 2^53; the model takes `id` and `number` below 2^53, as GitHub issues them, and does not model exponent notation or rounding, so `ParseNatToString` holds for those values only.
- RequesterPattern.RequesterOfSearchTerm: holds only for users made of `[A-Za-z0-9_-]`; a catalog name with a `.` (or any other character outside that class) is searched for in full but shown cut at that character, as `RequesterStopsAtDot` proves for a dot.
- A non-boolean `merged` in the pull-request body: it is a boolean here, an absent one false.
- React Router details beyond segment matching (case-insensitive matching of the literal `deployment-status` segment, trailing slashes, percent-decoding of parameters): the model compares the literal segment exactly.
- The backend and its permission policy (packages/backend/src/index.ts:12): outside the request-tracking views this model covers.
- PullRequestsCard.GetRepoDetailsExample: the documented URL is given as its eight segments joined by `/` rather than as one literal string.
