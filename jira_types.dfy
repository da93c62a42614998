/** The value shapes the Jira REST API returns (src/types/jira.ts), and the
    values the service layer throws. */
module JiraTypes {
  import opened Wrappers

  datatype StatusCategory = StatusCategory(name: string)

  datatype Status = Status(name: string, statusCategory: StatusCategory)

  datatype IssueType = IssueType(name: string, iconUrl: string)

  datatype Priority = Priority(name: string, iconUrl: string)

  datatype JiraUser = JiraUser(displayName: string, emailAddress: string, accountId: string)

  datatype ProjectRef = ProjectRef(key: string, name: string)

  /** An element of `components` or `fixVersions`: an object with a name. */
  datatype NamedRef = NamedRef(name: string)

  /** The `fields` object of an issue; the optional members are `Option`s. */
  datatype IssueFields = IssueFields(
    summary: string,
    description: Option<string>,
    status: Status,
    issuetype: IssueType,
    priority: Option<Priority>,
    assignee: Option<JiraUser>,
    reporter: Option<JiraUser>,
    created: string,
    updated: string,
    project: ProjectRef,
    labels: Option<seq<string>>,
    components: Option<seq<NamedRef>>,
    fixVersions: Option<seq<NamedRef>>,
    duedate: Option<string>)

  datatype JiraIssue = JiraIssue(id: string, key: string, self: string, fields: IssueFields)

  /** The body of a search request. The builders never set `startAt` or
      `expand`, so only the three members they set are modelled. */
  datatype JiraSearchParams = JiraSearchParams(jql: string, maxResults: int, fields: seq<string>)

  datatype JiraSearchResponse = JiraSearchResponse(startAt: int, maxResults: int, total: int, issues: seq<JiraIssue>)

  /** The plain object the service throws for an HTTP error response. */
  datatype JiraError = JiraError(status: int, err: string)

  /** What a service call can throw: an `Error` instance (its `name` and
      `message`), or a `JiraError`, which is a plain object and not an `Error`. */
  datatype Thrown = ErrorInstance(name: string, message: string) | JiraErrorThrown(error: JiraError)
}
