# Jira MCP server: a Dafny model of its core

The Jira MCP server exposes a handful of Jira Cloud queries as MCP tools.
This project models its core and proves properties of the model:

- `url_parser.dfy` (module `UrlParser`) models `src/utils/url-parser.ts`.
  - `extractIssueKeyFromUrl` tries the key after `/browse/`, then after `/issues/`, then anywhere.
  - `extractProjectKeyFromUrl` tries the key after `/projects/`, then the head of the issue key.
  - Each regular expression is modelled as a leftmost search (`FirstMatch`) with a greedy match at one position (`MatchLength`).
- `jira_service.dfy` (module `JiraService`) models the pure parts of `JiraService` in `src/services/jira.ts`:
  - base-URL normalisation in the constructor;
  - the request configuration;
  - the mapping of a failed request to a thrown `JiraError` or `Error`;
  - the four search requests built from a JQL query, a result cap and a field list.
- `epic_summary.dfy` (module `EpicSummaryAggregation`) models `getEpicSummary`.
  - The `forEach` pass that tallies the child issues is the method `SummarizeIssues`, with loop invariants.
  - The method is proved equal to the recursive specification `Summarize`.
  - The lemmas state what the summary promises: every child is counted once in each grouping, the done count agrees with the status grouping, and the open tickets are exactly the children that are not done, in order.
- `server.dfy` (module `Server`) models the pure parts of the tool handlers in `src/server.ts`:
  - the completion percentage;
  - the formatted epic report;
  - the text each handler returns when the service throws.
- `jira_types.dfy` holds the value shapes of `src/types/jira.ts` and the values the service throws.
- `wrappers.dfy` holds the `Option` and `Result` datatypes.

## JavaScript semantics made explicit

- **Truthiness.**
  - An empty project key counts as no key.
  - An empty priority name becomes `"None"`.
  - An empty assignee display name counts as unassigned.
  - An empty `errorMessages[0]` or `message` is skipped when the error message is chosen.
- **Default parameter.** `maxResults` is an `Option`, because the default of 50 applies only when it is omitted.
- **Interpolation.**
  - Interpolating an `Error` into a template string gives `Error.prototype.toString` (`ErrorToString`).
  - Interpolating a plain object such as a `JiraError` gives `"[object Object]"`.
- **Rounding.** `Math.round` of a percentage is rounding half up. It is computed exactly on integers.

**Error text of a thrown `JiraError`.** A `JiraError` is a plain object, not an `Error`, so what a tool shows for it depends on how the tool renders the caught value:

- The five interpolating tools put the caught value into a template string (src/server.ts:47, 90, 137, 163, 189). A `JiraError` then reads `"[object Object]"`: the text is the tool's prefix followed by `"[object Object]"`, whatever the status and message (`InterpolationHidesJiraError`).
- The two epic tools show the JSON of a `JiraError` (`EpicToolsShowJiraError`).
- For a thrown `Error`, every tool's text ends with the error's message (`ErrorMessageIsShown`).

## Model

| member | source | states |
|---|---|---|
| UrlParser.FirstMatch | src/utils/url-parser.ts:12-13 | `String.prototype.match` reports the leftmost position at which the whole expression matches: the result matches, no earlier position does, and None means no position matches |
| UrlParser.Search | src/utils/url-parser.ts:13-14 | `url.match(re)?.[1]` is null if and only if the expression matches nowhere; otherwise it is the captured text of the leftmost match |
| UrlParser.IssueKeyMatchSound | src/utils/url-parser.ts:12 | a greedy `[A-Z0-9]+-[0-9]+` match at a position is an issue key that no digit follows |
| UrlParser.IssueKeyMatchComplete | src/utils/url-parser.ts:26 | if a key starts at a position, the pattern matches there |
| UrlParser.MaximalKeyIsMatched | src/utils/url-parser.ts:26 | a key that no digit follows is exactly the text the greedy pattern matches at its start |
| UrlParser.SearchFindsKey | src/utils/url-parser.ts:26-30 | a key found by any of the three searches is an issue key and a substring of the URL |
| UrlParser.UnanchoredSearchComplete | src/utils/url-parser.ts:26-32 | the general search finds nothing if and only if no part of the URL is an issue key |
| UrlParser.ExtractIssueKeyFromUrl | src/utils/url-parser.ts:10-33 | a returned key is an issue key taken from the URL; the result is null if and only if the URL contains no issue key |
| UrlParser.BrowseKeyWins | src/utils/url-parser.ts:12-16 | when some `/browse/` is followed by a key, the result is the key after the first such `/browse/` |
| UrlParser.IssuesKeyWinsNext | src/utils/url-parser.ts:19-23 | with no key after `/browse/`, a key after `/issues/` wins, and it is the key after the first such `/issues/` |
| UrlParser.LeftmostMaximalKeyIsExtracted | src/utils/url-parser.ts:25-30 | with neither marker matched, the result is the leftmost key of the URL, extended as far as it goes |
| UrlParser.FirstUnanchoredMatchIsLeftmostMaximal | src/utils/url-parser.ts:26-30 | the first match of the general search is a leftmost key; no `[A-Z0-9]` character precedes it and no digit follows it |
| UrlParser.SplitHead | src/utils/url-parser.ts:55-57 | `split(sep)[0]` is a prefix of the string without `sep`, and it ends at the string's end or at the first `sep` |
| UrlParser.ProjectSearchFindsRun | src/utils/url-parser.ts:46-50 | a project key found after `/projects/` is a non-empty `[A-Z0-9]` run taken from the URL |
| UrlParser.ProjectPartOfKey | src/utils/url-parser.ts:55-57 | the part of an issue key before `-` is a non-empty `[A-Z0-9]` run, and it is followed by `-` in the key |
| UrlParser.ExtractProjectKeyFromUrl | src/utils/url-parser.ts:44-62 | a returned project key is a non-empty `[A-Z0-9]` run taken from the URL; null if and only if no `/projects/` key and no issue key occur |
| UrlParser.ProjectsPathWins | src/utils/url-parser.ts:46-50 | when some `/projects/` is followed by a run, the result is the run after the first such `/projects/` |
| UrlParser.ProjectKeyFromIssueKey | src/utils/url-parser.ts:52-58 | otherwise the project key is the head of the extracted issue key before its `-` |
| JiraService.NewJiraService | src/services/jira.ts:20-27 | the stored base URL is the given one less exactly one trailing `/`, if there is one; the API token is the basic-auth password |
| JiraService.StripsExactlyOneSlash | src/services/jira.ts:22 | a base URL ending in `//` keeps one slash; one ending in a single `/` loses it |
| JiraService.RequestConfigFor | src/services/jira.ts:37-46 | the request URL is the base URL followed by the endpoint, with the stored credentials; a body is sent exactly when the method is POST and data is given |
| JiraService.JoinsWithOneSlash | src/services/jira.ts:20-40 | a base URL configured with a trailing slash and an endpoint starting with `/` are joined by a single slash |
| JiraService.ErrorMessage | src/services/jira.ts:59-62 | the error text is never empty; the first error message wins if non-empty, then `message` if non-empty, then "Unknown error" |
| JiraService.RequestOutcome | src/services/jira.ts:29-68 | the call succeeds exactly when the HTTP call returns a body without throwing; an error response becomes a `JiraError` with its status and chosen message; any other failure becomes an `Error` prefixed "Failed to make request to Jira API: " |
| JiraService.NotFoundScenario | src/services/jira.ts:51-63 | a 404 whose body lists "Issue does not exist" is thrown as `{status: 404, err: "Issue does not exist"}` |
| JiraService.JqlMatchesTemplate | src/services/jira.ts:105-107 | the two template strings of a query are the conditions joined by ` AND ` and followed by the ordering, with and without the project condition |
| JiraService.AssignedIssuesQuery | src/services/jira.ts:101-122 | the JQL is "assignee = currentUser()", then the project condition only for a non-empty key, ordered by `updated DESC`; at most 50 results unless given; seven fields |
| JiraService.IssuesByTypeQuery | src/services/jira.ts:127-149 | the JQL is the quoted issue-type condition, then the project condition only for a non-empty key, ordered by `updated DESC`; at most 50 results unless given; seven fields |
| JiraService.NoProjectKeyGivesFixedAssignedQuery | src/services/jira.ts:105-107 | without a non-empty project key, the assigned-issues query is the fixed string |
| JiraService.NoProjectKeyGivesFixedTypeQuery | src/services/jira.ts:132-134 | without a non-empty project key, the issues-by-type query is the quoted type condition followed by the ordering |
| JiraService.ProjectKeyOnlyInsertsClause | src/services/jira.ts:105-134 | a project key only inserts ` AND project = <key>` before ` ORDER BY` in both queries |
| JiraService.EpicIssuesQuery | src/services/jira.ts:163-185 | the JQL selects the children of the quoted epic key, ordered by `updated DESC`; at most 50 results unless given; the list fields plus "parent" |
| JiraService.EpicSummaryQuery | src/services/jira.ts:212-222 | the same parent filter, ordered by status then priority, capped at 1000; the fields are exactly summary, status, issuetype, priority and assignee |
| JiraService.SummaryFieldsAreListFields | src/services/jira.ts:215-221 | the summary search requests only fields that the list searches also request |
| JiraService.SearchRequest | src/services/jira.ts:84-96 | a search is a POST to `/rest/api/3/search` whose body is the query, unchanged |
| EpicSummaryAggregation.DoneCount | src/services/jira.ts:259-262 | no more issues are done than there are issues |
| EpicSummaryAggregation.UnassignedCount | src/services/jira.ts:275-278 | no more issues are unassigned than there are issues |
| EpicSummaryAggregation.PrefixStep | src/services/jira.ts:243-279 | one more issue bumps its status, type and priority counts; it adds one to the done count or appends its ticket; it adds one to the unassigned count if it has no assignee |
| EpicSummaryAggregation.SummarizeIssues | src/services/jira.ts:224-293 | the loop over the issues yields exactly the specified summary: tallies, done count, unassigned count and open tickets |
| EpicSummaryAggregation.GetEpicSummary | src/services/jira.ts:208-224 | issue `epicKey` is fetched first, and a failure there is thrown unchanged; otherwise the search is made with `EpicSummaryQuery(epicKey)`, and its failure is thrown unchanged; otherwise the result is the summary of the fetched epic and the found issues |
| EpicSummaryAggregation.TallySum | src/services/jira.ts:249-256 | the counts of each grouping add up to the number of issues |
| EpicSummaryAggregation.TallyCounts | src/services/jira.ts:249-256 | a grouping holds exactly the labels that occur, each counted as often as it occurs, which is at least once |
| EpicSummaryAggregation.DoneCountFromStatusTally | src/services/jira.ts:258-262 | the done count is the sum of the status counts of Done, Closed, Resolved, Complete and Completed |
| EpicSummaryAggregation.NonDoneTicketsLength | src/services/jira.ts:281 | the open tickets and the done issues together are all the issues |
| EpicSummaryAggregation.NonDoneTicketsConcat | src/services/jira.ts:264-273 | the open-ticket list is an order-preserving filter: it distributes over concatenation |
| EpicSummaryAggregation.NonDoneTicketsOfOne | src/services/jira.ts:261-273 | one issue contributes its ticket exactly when its status is not a done status |
| EpicSummaryAggregation.NonDoneTicketsMembers | src/services/jira.ts:264-273 | every listed ticket is the record of a child that is not done, and every such child is listed |
| EpicSummaryAggregation.UnassignedCountsDoneIssuesToo | src/services/jira.ts:275-278 | unassigned issues are counted whether done or not: the unassigned open tickets plus the unassigned done issues |
| EpicSummaryAggregation.SummaryIsConsistent | src/services/jira.ts:224-293 | the summary keeps the epic; done plus not done is the total; one ticket per open issue; each grouping sums to the total; the done count agrees with the status grouping |
| EpicSummaryAggregation.DoneInProgressDoneScenario | src/services/jira.ts:243-281 | children Done, In Progress and Done give three issues: two done, one open ticket for the middle child, and status counts Done 2 and In Progress 1 |
| Server.CompletionPercentage | src/server.ts:275-276 | 0 without issues; otherwise the integer nearest to 100·done/total, halves up; within 0..100 when done ≤ total; 100 when every issue is done |
| Server.RoundingIsUnique | src/server.ts:275-276 | any integer that rounds 100·done/total half up equals the percentage |
| Server.CompletionExamples | src/server.ts:275-276 | 1/3 gives 33, 2/3 gives 67, 1/8 gives 13, 1/200 gives 1, 199/200 gives 100, and 0/0 gives 0 |
| Server.FormatSummary | src/server.ts:264-284 | the report keeps the epic's key, summary and status name; it copies the counts, groupings and tickets unchanged; its percentage is `CompletionPercentage(done, total)`, hence within 0..100 |
| Server.ReportIsConsistent | src/server.ts:264-284 | for any children: total, done and open counts add up; one ticket per open issue; percentage within 0..100, 0 without children and 100 when all are done |
| Server.ErrorToString | src/server.ts:47 | an interpolated `Error` reads "name: message", or whichever of the two is non-empty |
| Server.RenderError | src/server.ts:228-231 | the text after the prefix: for an `Error`, its message in the epic tools and "name: message" in the others, ending with the message either way; for a `JiraError`, its JSON in the epic tools and "[object Object]" in the others |
| Server.Respond | src/server.ts:34-50 | a handler answers with one text item: the result on success, else the tool's prefix followed by the rendered error |
| Server.EpicSummaryResponse | src/server.ts:255-306 | `get_epic_summary` answers with the serialised formatted report, or the epic-summary prefix followed by the rendered error |
| Server.ErrorPrefixesArePrefixFree | src/server.ts:47 | no tool's error prefix begins another tool's; the seven prefixes are at src/server.ts:47, 90, 137, 163, 189, 236 and 301 |
| Server.ErrorTextsOfToolsDiffer | src/server.ts:47 | two different tools never return the same failure text, whatever each caught (texts built at src/server.ts:47, 90, 137, 163, 189, 236 and 301) |
| Server.InterpolationHidesJiraError | src/server.ts:84-93 | an interpolating tool returns the same text for every `JiraError`: its prefix followed by "[object Object]" |
| Server.ErrorMessageIsShown | src/server.ts:226-240 | for every tool, the failure text for a thrown `Error` ends with its message |
| Server.EpicToolsShowJiraError | src/server.ts:226-240 | an error response reaches the epic tools as the JSON of the `JiraError` carrying the status and the chosen message |
| Server.NoResponseTextOfEpicTools | src/server.ts:291-305 | a request without a response shows "Failed to make request to Jira API: " and the cause after an epic tool's prefix |
| Server.NoResponseTextOfOtherTools | src/server.ts:47 | a request without a response shows "Error: Failed to make request to Jira API: " and the cause after the prefix of each interpolating tool (src/server.ts:47, 90, 137, 163, 189) |

## Left out

- The HTTP call (axios), its headers and its response parsing. Replies are given to the model as values (`Reply`, `Result`).
- Logging.
  - `writeLogs`, which writes files, and every `console` call are I/O.
  - The time-stamped log file name comes from the clock.
- `getIssue`, `getProjects` and `getIssueTypes` pass a request's outcome on unchanged. Their outcome is `RequestOutcome`, and inside `getEpicSummary` the calls to `getIssue` and `searchIssues` are the function parameters `fetch` and `search` of `GetEpicSummary`.
- Server.EpicSummaryResponse: the three groupings of the report are maps, so the report does not carry the key order of the source's `Record`s. `JSON.stringify` prints that order: labels in first-occurrence order, with integer-like labels first in ascending order. So children `[Done, In Progress]` and `[In Progress, Done]` give `{"Done":1,"In Progress":1}` and `{"In Progress":1,"Done":1}` in the source text but one report in the model. The counts in each grouping are modelled exactly (`TallyCounts`, `TallySum`); only their printed order is not.
- `JSON.stringify` is a function parameter (`json`, `serialise`), because its output format is not modelled. The success texts of the six tools other than `get_epic_summary` are therefore plain strings.
- The MCP layer is not modelled: tool registration, `zod` argument schemas, `connect`, the stdio and SSE/HTTP transports, and the start-up in `src/index.ts`. Each handler is modelled as the function from the service's outcome to its reply.
- Server.CompletionPercentage: computed exactly, without floating point. In IEEE double arithmetic `29 / 200 * 100` is just below 14.5, so the source reports 14 where the model reports 15. A difference can arise only where 100·done/total lies exactly halfway between two integers.
- `maxResults` is an unbounded integer. A non-integer, negative or `NaN` number is passed on as it is by the source, and no range is imposed by the model either.
- JavaScript objects used as maps: `Record` keys such as `"constructor"` or `"__proto__"` inherit values from `Object.prototype`, so `(m[k] || 0) + 1` misbehaves for them. The model treats every status, type and priority name as an ordinary key.
- Error bodies: `errorMessages` entries and `message` are taken to be strings. A non-string value would be chosen by `||` as it is.
- A thrown value that is neither an `Error` nor a response error is represented by its `String(...)` text (`OtherCause`). How that text is produced is not modelled.
- Regular expressions are modelled only for the four patterns the parser uses, not in general.
- JQL values are inserted without escaping, as in the source: the issue type and the epic key are wrapped in `"`, and the project key is inserted bare. A value containing `"` yields a malformed query, and the model reproduces the same string.
- `getEpicSummary` reads only the first page of at most 1000 children, as the source does. `total` in the search response is not consulted.
