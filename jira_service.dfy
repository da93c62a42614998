/** The pure parts of `JiraService` (src/services/jira.ts): base-URL
    normalisation in the constructor, the request configuration, the mapping
    of a failed HTTP call to a thrown value, and the search requests built by
    `getAssignedIssues`, `getIssuesByType`, `getEpicIssues` and
    `getEpicSummary`. The HTTP call itself is not modelled: its answer is a
    `Reply` given as a parameter. */
module JiraService {
  import opened Wrappers
  import opened JiraTypes

  datatype Auth = Auth(username: string, password: string)

  datatype JiraService = JiraService(baseUrl: string, auth: Auth)

  predicate EndsWithSlash(s: string) {
    |s| > 0 && s[|s| - 1] == '/'
  }

  /** The constructor: one trailing `/` is dropped from the base URL, the API
      token becomes the basic-auth password. */
  function NewJiraService(baseUrl: string, username: string, apiToken: string): (svc: JiraService)
    ensures svc.baseUrl <= baseUrl
    ensures |svc.baseUrl| == if EndsWithSlash(baseUrl) then |baseUrl| - 1 else |baseUrl|
    ensures svc.auth == Auth(username, apiToken)
  {
    var url := if EndsWithSlash(baseUrl) then baseUrl[..|baseUrl| - 1] else baseUrl;
    JiraService(url, Auth(username, apiToken))
  }

  /** Only ONE slash is removed: a base URL ending in `//` keeps one. */
  lemma StripsExactlyOneSlash(prefix: string)
    ensures NewJiraService(prefix + "//", "", "").baseUrl == prefix + "/"
    ensures !EndsWithSlash(prefix) ==> NewJiraService(prefix + "/", "", "").baseUrl == prefix
  {
    var svc := NewJiraService(prefix + "//", "", "");
    assert svc.baseUrl <= prefix + "//" && |svc.baseUrl| == |prefix| + 1;
    assert svc.baseUrl == (prefix + "//")[..|prefix| + 1];
    assert (prefix + "//")[..|prefix| + 1] == prefix + "/";
    var svc1 := NewJiraService(prefix + "/", "", "");
    assert svc1.baseUrl == (prefix + "/")[..|prefix|];
    assert (prefix + "/")[..|prefix|] == prefix;
  }

  // ---------------------------------------------------------------------
  // Requests and their failures
  // ---------------------------------------------------------------------

  datatype HttpMethod = GET | POST

  /** The configuration handed to the HTTP client. Headers are constant and
      left out; `data` is the request body. */
  datatype RequestConfig = RequestConfig(httpMethod: HttpMethod, url: string, auth: Auth, data: Option<JiraSearchParams>)

  /** The request for `endpoint`: the URL is the normalised base URL followed by
      the endpoint, and a body is sent only with POST. */
  function RequestConfigFor(svc: JiraService, endpoint: string, httpMethod: HttpMethod, data: Option<JiraSearchParams>): (r: RequestConfig)
    ensures r.url == svc.baseUrl + endpoint && r.auth == svc.auth && r.httpMethod == httpMethod
    ensures r.data.Some? <==> httpMethod == POST && data.Some?
    ensures r.data.Some? ==> r.data == data
  {
    RequestConfig(httpMethod, svc.baseUrl + endpoint, svc.auth, if httpMethod == POST then data else None)
  }

  /** A base URL configured with a trailing slash and an endpoint starting
      with `/` are joined with a single slash. */
  lemma {:induction false} JoinsWithOneSlash(host: string, endpoint: string, username: string, apiToken: string)
    requires !EndsWithSlash(host)
    ensures RequestConfigFor(NewJiraService(host + "/", username, apiToken), endpoint, GET, None).url
            == host + endpoint
  {
    StripsExactlyOneSlash(host);
    assert NewJiraService(host + "/", username, apiToken).baseUrl == NewJiraService(host + "/", "", "").baseUrl;
  }

  /** The parts of an error response body the service looks at; a missing body
      is `ErrorData(None, None)`. */
  datatype ErrorData = ErrorData(errorMessages: Option<seq<string>>, message: Option<string>)

  /** A failure without a response: an `Error` (its message) or any other
      thrown value (its `String(...)` rendering). */
  datatype Cause = ErrorCause(message: string) | OtherCause(text: string)

  datatype Failure = ResponseFailure(status: int, data: ErrorData) | NoResponse(cause: Cause)

  /** What the HTTP client yields for one request. */
  datatype Reply<T> = Received(data: T) | Failed(failure: Failure)

  /** `errorMessages?.[0]`: the first entry, when the list is present and not empty. */
  function FirstErrorMessage(data: ErrorData): Option<string> {
    match data.errorMessages
    case Some(msgs) => if |msgs| > 0 then Some(msgs[0]) else None
    case None => None
  }

  /** JavaScript truthiness of an optional string. */
  predicate Truthy(s: Option<string>) {
    s.Some? && s.value != ""
  }

  /** The message of a `JiraError`: the first error message, else `message`,
      else "Unknown error", each skipped when missing or empty. */
  function ErrorMessage(data: ErrorData): (err: string)
    ensures err != ""
    ensures Truthy(FirstErrorMessage(data)) ==> err == FirstErrorMessage(data).value
    ensures !Truthy(FirstErrorMessage(data)) && Truthy(data.message) ==> err == data.message.value
    ensures err == "Unknown error" || Some(err) == FirstErrorMessage(data) || Some(err) == data.message
  {
    var first := FirstErrorMessage(data);
    if Truthy(first) then first.value
    else if Truthy(data.message) then data.message.value
    else "Unknown error"
  }

  const RequestFailedPrefix := "Failed to make request to Jira API: "

  function CauseText(cause: Cause): string {
    match cause
    case ErrorCause(msg) => msg
    case OtherCause(text) => text
  }

  /** The outcome of `request`: the response body, a `JiraError` carrying the
      status for an error response, or an `Error` for a failure without one. */
  function RequestOutcome<T>(reply: Reply<T>): (r: Result<T, Thrown>)
    ensures r.Success? <==> reply.Received?
    ensures r.Success? ==> r.value == reply.data
    ensures reply.Failed? && reply.failure.ResponseFailure? ==>
              r.error == JiraErrorThrown(JiraError(reply.failure.status, ErrorMessage(reply.failure.data)))
    ensures reply.Failed? && reply.failure.NoResponse? ==>
              && r.error.ErrorInstance? && r.error.name == "Error"
              && r.error.message == RequestFailedPrefix + CauseText(reply.failure.cause)
  {
    match reply
    case Received(body) => Success(body)
    case Failed(ResponseFailure(status, data)) => Failure(JiraErrorThrown(JiraError(status, ErrorMessage(data))))
    case Failed(NoResponse(cause)) => Failure(ErrorInstance("Error", RequestFailedPrefix + CauseText(cause)))
  }

  /** A 404 whose body lists "Issue does not exist" becomes
      `JiraError{404, "Issue does not exist"}`. */
  lemma NotFoundScenario()
    ensures RequestOutcome<JiraIssue>(Failed(ResponseFailure(404, ErrorData(Some(["Issue does not exist"]), None))))
            == Failure(JiraErrorThrown(JiraError(404, "Issue does not exist")))
  {
  }

  // ---------------------------------------------------------------------
  // Search requests
  // ---------------------------------------------------------------------

  const DefaultMaxResults := 50
  const SummaryMaxResults := 1000

  const IssueListFields: seq<string> :=
    ["summary", "description", "status", "issuetype", "priority", "assignee", "project"]
  const EpicIssueFields: seq<string> := IssueListFields + ["parent"]
  const EpicSummaryFields: seq<string> := ["summary", "status", "issuetype", "priority", "assignee"]

  const SearchEndpoint := "/rest/api/3/search"

  /** Reference shape of a JQL query: conditions joined by ` AND `, then the
      ordering clause. */
  function Join(parts: seq<string>, sep: string): string {
    if |parts| == 0 then ""
    else if |parts| == 1 then parts[0]
    else parts[0] + sep + Join(parts[1..], sep)
  }

  function Jql(conditions: seq<string>, orderBy: string): string {
    Join(conditions, " AND ") + " ORDER BY " + orderBy
  }

  lemma JqlOfOneOrTwo(first: string, second: string, orderBy: string)
    ensures Jql([first], orderBy) == first + " ORDER BY " + orderBy
    ensures Jql([first, second], orderBy) == first + " AND " + second + " ORDER BY " + orderBy
  {
    assert [first, second][1..] == [second];
    calc {
      Join([first, second], " AND ");
      first + " AND " + Join([second], " AND ");
      first + " AND " + second;
    }
  }

  /** The two template strings of `getAssignedIssues` and `getIssuesByType`
      are the reference shape with and without the project condition. */
  lemma JqlMatchesTemplate(head: string, projectKey: Option<string>, orderBy: string, jql: string)
    requires Truthy(projectKey) ==> jql == head + " AND project = " + projectKey.value + " ORDER BY " + orderBy
    requires !Truthy(projectKey) ==> jql == head + " ORDER BY " + orderBy
    ensures jql == Jql([head] + ProjectCondition(projectKey), orderBy)
  {
    if Truthy(projectKey) {
      var k := projectKey.value;
      JqlOfOneOrTwo(head, "project = " + k, orderBy);
      assert [head] + ProjectCondition(projectKey) == [head, "project = " + k];
      assert " AND " + "project = " == " AND project = ";
      calc {
        Jql([head, "project = " + k], orderBy);
        head + " AND " + ("project = " + k) + " ORDER BY " + orderBy;
        head + (" AND " + "project = ") + k + " ORDER BY " + orderBy;
        head + " AND project = " + k + " ORDER BY " + orderBy;
      }
    } else {
      JqlOfOneOrTwo(head, "", orderBy);
      assert [head] + ProjectCondition(projectKey) == [head];
    }
  }

  /** `projectKey ? ... : ...`: an absent or empty key adds no condition. */
  function ProjectCondition(projectKey: Option<string>): seq<string> {
    if Truthy(projectKey) then ["project = " + projectKey.value] else []
  }

  function MaxResultsOrDefault(maxResults: Option<int>): int {
    if maxResults.Some? then maxResults.value else DefaultMaxResults
  }

  function AssignedIssuesQuery(projectKey: Option<string>, maxResults: Option<int>): (q: JiraSearchParams)
    ensures q.jql == Jql(["assignee = currentUser()"] + ProjectCondition(projectKey), "updated DESC")
    ensures maxResults.None? ==> q.maxResults == 50
    ensures maxResults.Some? ==> q.maxResults == maxResults.value
    ensures q.fields == IssueListFields
  {
    var jql := if Truthy(projectKey)
      then "assignee = currentUser()" + " AND project = " + projectKey.value + " ORDER BY updated DESC"
      else "assignee = currentUser()" + " ORDER BY updated DESC";
    JqlMatchesTemplate("assignee = currentUser()", projectKey, "updated DESC", jql);
    JiraSearchParams(jql, MaxResultsOrDefault(maxResults), IssueListFields)
  }

  function IssuesByTypeQuery(issueType: string, projectKey: Option<string>, maxResults: Option<int>): (q: JiraSearchParams)
    ensures q.jql == Jql(["issuetype = \"" + issueType + "\""] + ProjectCondition(projectKey), "updated DESC")
    ensures maxResults.None? ==> q.maxResults == 50
    ensures maxResults.Some? ==> q.maxResults == maxResults.value
    ensures q.fields == IssueListFields
  {
    var jql := if Truthy(projectKey)
      then "issuetype = \"" + issueType + "\"" + " AND project = " + projectKey.value + " ORDER BY updated DESC"
      else "issuetype = \"" + issueType + "\"" + " ORDER BY updated DESC";
    JqlMatchesTemplate("issuetype = \"" + issueType + "\"", projectKey, "updated DESC", jql);
    JiraSearchParams(jql, MaxResultsOrDefault(maxResults), IssueListFields)
  }

  function EpicIssuesQuery(epicKey: string, maxResults: Option<int>): (q: JiraSearchParams)
    ensures q.jql == Jql(["parent = \"" + epicKey + "\""], "updated DESC")
    ensures maxResults.None? ==> q.maxResults == 50
    ensures maxResults.Some? ==> q.maxResults == maxResults.value
    ensures q.fields == IssueListFields + ["parent"]
  {
    JqlOfOneOrTwo("parent = \"" + epicKey + "\"", "", "updated DESC");
    JiraSearchParams("parent = \"" + epicKey + "\" ORDER BY " + "updated DESC", MaxResultsOrDefault(maxResults), EpicIssueFields)
  }

  /** The search behind the epic summary: the same filter as `EpicIssuesQuery`,
      ordered by status then priority, capped at 1000, five fields. */
  function EpicSummaryQuery(epicKey: string): (q: JiraSearchParams)
    ensures q.jql == Jql(["parent = \"" + epicKey + "\""], "status ASC, priority DESC")
    ensures q.maxResults == 1000
    ensures q.fields == ["summary", "status", "issuetype", "priority", "assignee"]
  {
    JqlOfOneOrTwo("parent = \"" + epicKey + "\"", "", "status ASC, priority DESC");
    JiraSearchParams("parent = \"" + epicKey + "\" ORDER BY " + "status ASC, priority DESC", SummaryMaxResults, EpicSummaryFields)
  }

  /** The summary search requests only fields the list searches also request. */
  lemma SummaryFieldsAreListFields(epicKey: string)
    ensures forall f :: f in EpicSummaryQuery(epicKey).fields ==> f in IssueListFields
  {
  }

  /** Without a (non-empty) project key the queries are the fixed strings. */
  lemma NoProjectKeyGivesFixedAssignedQuery(projectKey: Option<string>, maxResults: Option<int>)
    requires !Truthy(projectKey)
    ensures AssignedIssuesQuery(projectKey, maxResults).jql == "assignee = currentUser()" + " ORDER BY " + "updated DESC"
  {
    JqlOfOneOrTwo("assignee = currentUser()", "", "updated DESC");
    assert ["assignee = currentUser()"] + ProjectCondition(projectKey) == ["assignee = currentUser()"];
  }

  lemma NoProjectKeyGivesFixedTypeQuery(issueType: string, projectKey: Option<string>, maxResults: Option<int>)
    requires !Truthy(projectKey)
    ensures IssuesByTypeQuery(issueType, projectKey, maxResults).jql == "issuetype = \"" + issueType + "\"" + " ORDER BY " + "updated DESC"
  {
    var head := "issuetype = \"" + issueType + "\"";
    JqlOfOneOrTwo(head, "", "updated DESC");
    assert [head] + ProjectCondition(projectKey) == [head];
  }

  /** With a project key, the only difference from the query without one is
      ` AND project = <key>` inserted before ` ORDER BY`. */
  lemma ProjectKeyOnlyInsertsClause(issueType: string, projectKey: Option<string>, maxResults: Option<int>)
    requires Truthy(projectKey)
    ensures var clause := " AND project = " + projectKey.value;
            var tail := " ORDER BY updated DESC";
            && AssignedIssuesQuery(None, maxResults).jql == "assignee = currentUser()" + tail
            && AssignedIssuesQuery(projectKey, maxResults).jql == "assignee = currentUser()" + clause + tail
            && IssuesByTypeQuery(issueType, None, maxResults).jql == "issuetype = \"" + issueType + "\"" + tail
            && IssuesByTypeQuery(issueType, projectKey, maxResults).jql == "issuetype = \"" + issueType + "\"" + clause + tail
  {
  }

  /** The search request: a POST to the search endpoint whose body is the
      query, unchanged. */
  function SearchRequest(svc: JiraService, params: JiraSearchParams): (r: RequestConfig)
    ensures r.httpMethod == POST && r.url == svc.baseUrl + "/rest/api/3/search"
    ensures r.data == Some(params)
  {
    RequestConfigFor(svc, SearchEndpoint, POST, Some(params))
  }
}
