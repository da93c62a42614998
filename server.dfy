/** The pure parts of the tool handlers of `JiraMcpServer` (src/server.ts):
    the completion percentage and the report the `get_epic_summary` tool
    returns, and the text every handler returns when the service throws.
    Serialisation with `JSON.stringify` is a parameter of the functions that
    need it, since its output is not modelled. */
module Server {
  import opened Wrappers
  import opened JiraTypes
  import opened JiraService
  import Agg = EpicSummaryAggregation

  // ---------------------------------------------------------------------
  // Completion percentage
  // ---------------------------------------------------------------------

  /** `Math.round(done / total * 100)`, or 0 for an epic without issues:
      the integer nearest to `100 * done / total`, halves rounded up. */
  function CompletionPercentage(doneIssues: nat, totalIssues: nat): (r: int)
    ensures totalIssues == 0 ==> r == 0
    ensures totalIssues > 0 ==>
              2 * totalIssues * r <= 200 * doneIssues + totalIssues < 2 * totalIssues * r + 2 * totalIssues
    ensures doneIssues <= totalIssues ==> 0 <= r <= 100
    ensures 0 < totalIssues == doneIssues ==> r == 100
  {
    if totalIssues > 0 then
      var r := (200 * doneIssues + totalIssues) / (2 * totalIssues);
      PercentageBounds(doneIssues, totalIssues, r);
      r
    else 0
  }

  lemma PercentageBounds(doneIssues: nat, totalIssues: nat, r: int)
    requires totalIssues > 0 && r == (200 * doneIssues + totalIssues) / (2 * totalIssues)
    ensures 2 * totalIssues * r <= 200 * doneIssues + totalIssues < 2 * totalIssues * r + 2 * totalIssues
    ensures doneIssues <= totalIssues ==> 0 <= r <= 100
    ensures doneIssues == totalIssues ==> r == 100
  {
    var n, d := 200 * doneIssues + totalIssues, 2 * totalIssues;
    DivisionBounds(n, d);
    if doneIssues <= totalIssues && r > 100 {
      ScaleMonotone(d, 101, r);
    }
    if doneIssues == totalIssues && r < 100 {
      ScaleMonotone(d, r, 99);
    }
  }

  lemma DivisionBounds(n: nat, d: nat)
    requires d > 0
    ensures 0 <= n / d && d * (n / d) <= n < d * (n / d) + d
  {
  }

  lemma ScaleMonotone(d: nat, a: int, b: int)
    requires a <= b
    ensures d * a <= d * b
  {
    assert d * b == d * a + d * (b - a);
  }

  /** Round half up has one answer: any integer within half a unit below and
      under half a unit above `100 * done / total` is the percentage. */
  lemma RoundingIsUnique(doneIssues: nat, totalIssues: nat, p: int)
    requires totalIssues > 0
    requires 2 * totalIssues * p <= 200 * doneIssues + totalIssues < 2 * totalIssues * p + 2 * totalIssues
    ensures CompletionPercentage(doneIssues, totalIssues) == p
  {
    var r := CompletionPercentage(doneIssues, totalIssues);
    var d := 2 * totalIssues;
    if r < p {
      ScaleMonotone(d, r + 1, p);
    } else if r > p {
      ScaleMonotone(d, p + 1, r);
    }
  }

  /** 1/3 is 33%, 2/3 is 67%, 1/8 (12.5%) is 13%, 1/200 (0.5%) is 1% and
      199/200 (99.5%) is 100%. */
  lemma CompletionExamples()
    ensures CompletionPercentage(1, 3) == 33
    ensures CompletionPercentage(2, 3) == 67
    ensures CompletionPercentage(1, 8) == 13
    ensures CompletionPercentage(1, 200) == 1
    ensures CompletionPercentage(199, 200) == 100
    ensures CompletionPercentage(0, 0) == 0
  {
    RoundingIsUnique(1, 3, 33);
    RoundingIsUnique(2, 3, 67);
    RoundingIsUnique(1, 8, 13);
    RoundingIsUnique(1, 200, 1);
    RoundingIsUnique(199, 200, 100);
  }

  // ---------------------------------------------------------------------
  // The `get_epic_summary` report
  // ---------------------------------------------------------------------

  datatype EpicHeader = EpicHeader(key: string, summary: string, status: string)

  datatype Statistics = Statistics(
    totalIssues: nat,
    doneIssues: nat,
    nonDoneIssues: nat,
    unassignedIssues: nat,
    completionPercentage: int)

  datatype Breakdown = Breakdown(byStatus: map<string, nat>, byType: map<string, nat>, byPriority: map<string, nat>)

  datatype EpicReport = EpicReport(
    epic: EpicHeader,
    statistics: Statistics,
    breakdown: Breakdown,
    nonDoneTickets: seq<Agg.Ticket>)

  /** `formattedSummary`: the epic reduced to key, summary and status name;
      the counts, the three groupings and the ticket list copied unchanged;
      and the completion percentage added. */
  function FormatSummary(s: Agg.EpicSummary): (r: EpicReport)
    ensures r.epic == EpicHeader(s.epic.key, s.epic.fields.summary, s.epic.fields.status.name)
    ensures r.statistics.totalIssues == s.totalIssues && r.statistics.doneIssues == s.doneIssues
    ensures r.statistics.nonDoneIssues == s.nonDoneIssues && r.statistics.unassignedIssues == s.unassignedIssues
    ensures r.breakdown == Breakdown(s.issuesByStatus, s.issuesByType, s.issuesByPriority)
    ensures r.nonDoneTickets == s.nonDoneTickets
    ensures r.statistics.completionPercentage == CompletionPercentage(s.doneIssues, s.totalIssues)
    ensures s.doneIssues <= s.totalIssues ==> 0 <= r.statistics.completionPercentage <= 100
  {
    EpicReport(
      EpicHeader(s.epic.key, s.epic.fields.summary, s.epic.fields.status.name),
      Statistics(s.totalIssues, s.doneIssues, s.nonDoneIssues, s.unassignedIssues,
                 CompletionPercentage(s.doneIssues, s.totalIssues)),
      Breakdown(s.issuesByStatus, s.issuesByType, s.issuesByPriority),
      s.nonDoneTickets)
  }

  /** The report of an epic's children is consistent: the done and the open
      counts add up, the listed tickets are the open ones, the percentage is
      within 0..100, 100 when every child is done and 0 when there are none. */
  lemma ReportIsConsistent(epic: JiraIssue, issues: seq<JiraIssue>)
    ensures var r := FormatSummary(Agg.Summarize(epic, issues));
            && r.statistics.totalIssues == |issues|
            && r.statistics.doneIssues + r.statistics.nonDoneIssues == |issues|
            && |r.nonDoneTickets| == r.statistics.nonDoneIssues
            && 0 <= r.statistics.completionPercentage <= 100
            && (|issues| == 0 ==> r.statistics.completionPercentage == 0)
            && (|issues| > 0 && r.statistics.nonDoneIssues == 0 ==> r.statistics.completionPercentage == 100)
  {
    Agg.SummaryIsConsistent(epic, issues);
  }

  // ---------------------------------------------------------------------
  // Tool results and error text
  // ---------------------------------------------------------------------

  /** The seven registered tools. */
  datatype Tool =
    | IssueTool            // get_issue
    | AssignedIssuesTool   // get_assigned_issues
    | IssuesByTypeTool     // get_issues_by_type
    | ProjectsTool         // get_projects
    | IssueTypesTool       // get_issue_types
    | EpicIssuesTool       // get_epic_issues
    | EpicSummaryTool      // get_epic_summary

  /** The text each handler puts before the rendered error. */
  function ErrorPrefix(tool: Tool): string {
    match tool
    case IssueTool => "Error fetching issue: "
    case AssignedIssuesTool => "Error fetching assigned issues: "
    case IssuesByTypeTool => "Error fetching issues by type: "
    case ProjectsTool => "Error fetching projects: "
    case IssueTypesTool => "Error fetching issue types: "
    case EpicIssuesTool => "Error fetching issues under epic: "
    case EpicSummaryTool => "Error fetching epic summary: "
  }

  /** The two epic tools render an `Error` by its message and anything else as
      JSON; the others interpolate the thrown value into a template string. */
  predicate RendersAsJson(tool: Tool) {
    tool == EpicIssuesTool || tool == EpicSummaryTool
  }

  /** `Error.prototype.toString`: the name and the message joined by ": ",
      or whichever of the two is not empty. */
  function ErrorToString(name: string, message: string): (s: string)
    ensures message == "" ==> s == name
    ensures name == "" ==> s == message
    ensures name != "" && message != "" ==> s == name + ": " + message
  {
    if name == "" then message
    else if message == "" then name
    else name + ": " + message
  }

  /** What `${error}` gives for a plain object such as a `JiraError`. */
  const PlainObjectText := "[object Object]"

  /** The rendering of a thrown value after the tool's prefix. */
  function RenderError(tool: Tool, error: Thrown, json: JiraError -> string): (r: string)
    ensures error.ErrorInstance? && RendersAsJson(tool) ==> r == error.message
    ensures error.ErrorInstance? && !RendersAsJson(tool) ==> r == ErrorToString(error.name, error.message)
    ensures error.ErrorInstance? ==> |error.message| <= |r| && r[|r| - |error.message|..] == error.message
    ensures error.JiraErrorThrown? && RendersAsJson(tool) ==> r == json(error.error)
    ensures error.JiraErrorThrown? && !RendersAsJson(tool) ==> r == "[object Object]"
  {
    match error
    case ErrorInstance(name, message) =>
      if RendersAsJson(tool) then message else ErrorToString(name, message)
    case JiraErrorThrown(e) =>
      if RendersAsJson(tool) then json(e) else PlainObjectText
  }

  datatype Content = Text(text: string)

  datatype CallToolResult = CallToolResult(content: seq<Content>)

  /** A handler's reply: the serialised result when the service call
      succeeds, else the tool's prefix and the rendered error; one text item
      either way, and nothing is thrown. */
  function Respond(tool: Tool, outcome: Result<string, Thrown>, json: JiraError -> string): (r: CallToolResult)
    ensures |r.content| == 1
    ensures outcome.Success? ==> r.content[0].text == outcome.value
    ensures outcome.Failure? ==> ErrorPrefix(tool) <= r.content[0].text
    ensures outcome.Failure? ==> r.content[0].text[|ErrorPrefix(tool)|..] == RenderError(tool, outcome.error, json)
  {
    match outcome
    case Success(text) => CallToolResult([Text(text)])
    case Failure(error) => CallToolResult([Text(ErrorPrefix(tool) + RenderError(tool, error, json))])
  }

  /** `get_epic_summary`: the serialised report of the summary, or the error
      text. */
  function EpicSummaryResponse(outcome: Result<Agg.EpicSummary, Thrown>, json: JiraError -> string,
                               serialise: EpicReport -> string): (r: CallToolResult)
    ensures |r.content| == 1
    ensures outcome.Success? ==> r.content[0].text == serialise(FormatSummary(outcome.value))
    ensures outcome.Failure? ==> r.content[0].text == ErrorPrefix(EpicSummaryTool) + RenderError(EpicSummaryTool, outcome.error, json)
  {
    match outcome
    case Success(s) => Respond(EpicSummaryTool, Success(serialise(FormatSummary(s))), json)
    case Failure(error) => Respond(EpicSummaryTool, Failure(error), json)
  }

  /** No prefix starts another... */
  lemma ErrorPrefixesArePrefixFree(a: Tool, b: Tool)
    requires a != b
    ensures !(ErrorPrefix(a) <= ErrorPrefix(b))
  {
    var pa, pb := ErrorPrefix(a), ErrorPrefix(b);
    if |pa| <= |pb| {
      assert pa[15] != pb[15] || pa[16] != pb[16] || pa[|pa| - 2] != pb[|pa| - 2];
    }
  }

  /** ...so the error texts of two different tools always differ, whatever
      was thrown. */
  lemma ErrorTextsOfToolsDiffer(a: Tool, b: Tool, errorA: Thrown, errorB: Thrown, json: JiraError -> string)
    requires a != b
    ensures Respond(a, Failure(errorA), json) != Respond(b, Failure(errorB), json)
  {
    var textA := Respond(a, Failure(errorA), json).content[0].text;
    var textB := Respond(b, Failure(errorB), json).content[0].text;
    ErrorPrefixesArePrefixFree(a, b);
    ErrorPrefixesArePrefixFree(b, a);
    PrefixesOfOneText(ErrorPrefix(a), ErrorPrefix(b), textA);
    assert ErrorPrefix(b) <= textB;
  }

  lemma PrefixesOfOneText(a: string, b: string, text: string)
    ensures a <= text && b <= text ==> a <= b || b <= a
  {
    if a <= text && b <= text {
      if |a| <= |b| {
        assert a == text[..|a|] == b[..|a|];
      } else {
        assert b == text[..|b|] == a[..|b|];
      }
    }
  }

  /** The five interpolating tools lose everything a `JiraError` carries: the
      text is the same for every status and message. */
  lemma InterpolationHidesJiraError(tool: Tool, e1: JiraError, e2: JiraError, json: JiraError -> string)
    requires !RendersAsJson(tool)
    ensures Respond(tool, Failure(JiraErrorThrown(e1)), json) == Respond(tool, Failure(JiraErrorThrown(e2)), json)
    ensures Respond(tool, Failure(JiraErrorThrown(e1)), json).content[0].text == ErrorPrefix(tool) + PlainObjectText
  {
  }

  /** Every tool shows the message of an `Error` as the tail of its text. */
  lemma ErrorMessageIsShown(tool: Tool, name: string, message: string, json: JiraError -> string)
    ensures var text := Respond(tool, Failure(ErrorInstance(name, message)), json).content[0].text;
            |message| <= |text| && text[|text| - |message|..] == message
  {
  }

  /** A request that gets no response: the epic tools show the service's
      message after their prefix... */
  lemma NoResponseTextOfEpicTools(tool: Tool, cause: Cause, json: JiraError -> string)
    requires RendersAsJson(tool)
    ensures Respond(tool, RequestOutcome<string>(Failed(NoResponse(cause))), json).content[0].text
            == ErrorPrefix(tool) + (RequestFailedPrefix + CauseText(cause))
  {
    var message := RequestFailedPrefix + CauseText(cause);
    assert RequestOutcome<string>(Failed(NoResponse(cause))) == Failure(ErrorInstance("Error", message));
  }

  /** ...and the other tools put "Error: " before it. */
  lemma NoResponseTextOfOtherTools(tool: Tool, cause: Cause, json: JiraError -> string)
    requires !RendersAsJson(tool)
    ensures Respond(tool, RequestOutcome<string>(Failed(NoResponse(cause))), json).content[0].text
            == ErrorPrefix(tool) + ("Error: " + (RequestFailedPrefix + CauseText(cause)))
  {
    var message := RequestFailedPrefix + CauseText(cause);
    assert RequestOutcome<string>(Failed(NoResponse(cause))) == Failure(ErrorInstance("Error", message));
    assert message != "";
  }

  /** An error response: the epic tools show the JSON of the `JiraError`
      that carries the status and the chosen message. */
  lemma EpicToolsShowJiraError(tool: Tool, status: int, data: ErrorData, json: JiraError -> string)
    requires RendersAsJson(tool)
    ensures var text := Respond(tool, RequestOutcome<string>(Failed(ResponseFailure(status, data))), json).content[0].text;
            text == ErrorPrefix(tool) + json(JiraError(status, ErrorMessage(data)))
  {
  }
}
