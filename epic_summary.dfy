/** The epic roll-up of `JiraService.getEpicSummary` (src/services/jira.ts):
    one pass over the epic's child issues that tallies them by status, type
    and priority, counts the done and the unassigned ones, and lists the
    issues that are not done. The pass is the method `SummarizeIssues`; the
    recursive functions below say what each accumulator holds after a prefix
    of the issues, and the lemmas state what the report promises. */
module EpicSummaryAggregation {
  import opened Wrappers
  import opened JiraTypes
  import opened JiraService

  /** Status names counted as done: an exact, case-sensitive match. */
  const DoneStatuses: seq<string> := ["Done", "Closed", "Resolved", "Complete", "Completed"]

  predicate IsDone(status: string) {
    status in DoneStatuses
  }

  function StatusName(issue: JiraIssue): string {
    issue.fields.status.name
  }

  function TypeName(issue: JiraIssue): string {
    issue.fields.issuetype.name
  }

  /** `priority?.name || 'None'`: a missing priority or an empty name is "None". */
  function PriorityName(issue: JiraIssue): string {
    match issue.fields.priority
    case Some(p) => if p.name != "" then p.name else "None"
    case None => "None"
  }

  /** `assignee?.displayName || null`: a missing assignee or an empty display
      name is no assignee. */
  function AssigneeName(issue: JiraIssue): Option<string> {
    match issue.fields.assignee
    case Some(u) => if u.displayName != "" then Some(u.displayName) else None
    case None => None
  }

  /** The compact record listed for an issue that is not done; `issueType` is
      the member the source calls `type`. */
  datatype Ticket = Ticket(key: string, summary: string, status: string, issueType: string, priority: string, assignee: Option<string>)

  function ToTicket(issue: JiraIssue): Ticket {
    Ticket(issue.key, issue.fields.summary, StatusName(issue), TypeName(issue), PriorityName(issue), AssigneeName(issue))
  }

  datatype EpicSummary = EpicSummary(
    epic: JiraIssue,
    totalIssues: nat,
    nonDoneIssues: nat,
    doneIssues: nat,
    issuesByStatus: map<string, nat>,
    issuesByType: map<string, nat>,
    issuesByPriority: map<string, nat>,
    unassignedIssues: nat,
    nonDoneTickets: seq<Ticket>)

  // ---------------------------------------------------------------------
  // What each accumulator holds after the issues `issues`
  // ---------------------------------------------------------------------

  /** The three groupings. */
  datatype Grouping = ByStatus | ByType | ByPriority

  function Label(issue: JiraIssue, g: Grouping): string {
    match g
    case ByStatus => StatusName(issue)
    case ByType => TypeName(issue)
    case ByPriority => PriorityName(issue)
  }

  /** `m[k] = (m[k] || 0) + 1` */
  function Bump(m: map<string, nat>, k: string): map<string, nat> {
    m[k := if k in m then m[k] + 1 else 1]
  }

  function Tally(issues: seq<JiraIssue>, g: Grouping): map<string, nat> {
    if issues == [] then map[]
    else Bump(Tally(issues[..|issues| - 1], g), Label(issues[|issues| - 1], g))
  }

  /** Number of issues whose label under `g` is `k`. */
  function CountLabel(issues: seq<JiraIssue>, g: Grouping, k: string): nat {
    if issues == [] then 0
    else CountLabel(issues[..|issues| - 1], g, k) + (if Label(issues[|issues| - 1], g) == k then 1 else 0)
  }

  function DoneCount(issues: seq<JiraIssue>): (n: nat)
    ensures n <= |issues|
  {
    if issues == [] then 0
    else DoneCount(issues[..|issues| - 1]) + (if IsDone(StatusName(issues[|issues| - 1])) then 1 else 0)
  }

  function UnassignedCount(issues: seq<JiraIssue>): (n: nat)
    ensures n <= |issues|
  {
    if issues == [] then 0
    else UnassignedCount(issues[..|issues| - 1]) + (if AssigneeName(issues[|issues| - 1]).None? then 1 else 0)
  }

  function NonDoneTickets(issues: seq<JiraIssue>): seq<Ticket> {
    if issues == [] then []
    else
      var last := issues[|issues| - 1];
      NonDoneTickets(issues[..|issues| - 1]) + (if IsDone(StatusName(last)) then [] else [ToTicket(last)])
  }

  /** The report the pass produces. */
  function Summarize(epic: JiraIssue, issues: seq<JiraIssue>): EpicSummary {
    EpicSummary(
      epic, |issues|, |issues| - DoneCount(issues), DoneCount(issues),
      Tally(issues, ByStatus), Tally(issues, ByType), Tally(issues, ByPriority),
      UnassignedCount(issues), NonDoneTickets(issues))
  }

  // ---------------------------------------------------------------------
  // Properties of the groupings
  // ---------------------------------------------------------------------

  lemma MapRemoveSize(m: map<string, nat>, k: string)
    requires k in m
    ensures |m - {k}| == |m| - 1
  {
    assert (m - {k}).Keys == m.Keys - {k};
  }

  ghost function Pick(m: map<string, nat>): (k: string)
    requires |m| > 0
    ensures k in m
  {
    assert m.Keys != {} by { assert |m.Keys| == |m|; }
    var k :| k in m; k
  }

  /** The sum of a grouping's counts. */
  ghost function SumValues(m: map<string, nat>): nat
    decreases |m|
  {
    if |m| == 0 then 0
    else
      var k := Pick(m);
      MapRemoveSize(m, k);
      m[k] + SumValues(m - {k})
  }

  /** The sum may be taken by removing any key first. */
  lemma {:induction false} SumValuesRemove(m: map<string, nat>, k: string)
    requires k in m
    ensures SumValues(m) == m[k] + SumValues(m - {k})
    decreases |m|
  {
    var j := Pick(m);
    if j != k {
      var mj, mk := m - {j}, m - {k};
      MapRemoveSize(m, j);
      MapRemoveSize(m, k);
      assert k in mj && j in mk;
      SumValuesRemove(mj, k);
      SumValuesRemove(mk, j);
      assert mj - {k} == mk - {j};
    }
  }

  lemma SumValuesBump(m: map<string, nat>, k: string)
    ensures SumValues(Bump(m, k)) == SumValues(m) + 1
  {
    if k in m {
      SumValuesBumpPresent(m, k);
    } else {
      SumValuesBumpAbsent(m, k);
    }
  }

  lemma SumValuesBumpPresent(m: map<string, nat>, k: string)
    requires k in m
    ensures SumValues(Bump(m, k)) == SumValues(m) + 1
  {
    var m' := m[k := m[k] + 1];
    SumValuesRemove(m', k);
    SumValuesRemove(m, k);
    assert m' - {k} == m - {k};
  }

  lemma SumValuesBumpAbsent(m: map<string, nat>, k: string)
    requires k !in m
    ensures SumValues(Bump(m, k)) == SumValues(m) + 1
  {
    var m' := m[k := 1];
    SumValuesRemove(m', k);
    assert m' - {k} == m;
  }

  /** Every issue is counted exactly once in each grouping. */
  lemma {:induction false} TallySum(issues: seq<JiraIssue>, g: Grouping)
    ensures SumValues(Tally(issues, g)) == |issues|
  {
    if issues != [] {
      TallySum(issues[..|issues| - 1], g);
      SumValuesBump(Tally(issues[..|issues| - 1], g), Label(issues[|issues| - 1], g));
    }
  }

  /** A grouping holds exactly the labels that occur, each with its number of
      occurrences, which is at least one. */
  lemma {:induction false} TallyCounts(issues: seq<JiraIssue>, g: Grouping, k: string)
    ensures k in Tally(issues, g) <==> exists i :: 0 <= i < |issues| && Label(issues[i], g) == k
    ensures k in Tally(issues, g) ==> Tally(issues, g)[k] == CountLabel(issues, g, k) >= 1
    ensures k !in Tally(issues, g) ==> CountLabel(issues, g, k) == 0
  {
    if issues != [] {
      var init, last := issues[..|issues| - 1], issues[|issues| - 1];
      TallyCounts(init, g, k);
      var before := Tally(init, g);
      assert Tally(issues, g) == Bump(before, Label(last, g));
      assert CountLabel(issues, g, k) == CountLabel(init, g, k) + (if Label(last, g) == k then 1 else 0);
      if Label(last, g) == k {
        assert Label(issues[|issues| - 1], g) == k;
      } else {
        assert k in Tally(issues, g) <==> k in before;
        if exists i :: 0 <= i < |issues| && Label(issues[i], g) == k {
          var i :| 0 <= i < |issues| && Label(issues[i], g) == k;
          assert i < |init| && init[i] == issues[i];
        }
        if exists i :: 0 <= i < |init| && Label(init[i], g) == k {
          var i :| 0 <= i < |init| && Label(init[i], g) == k;
          assert init[i] == issues[i];
        }
      }
    }
  }

  /** The count of label `k` in a grouping, 0 when `k` is absent. */
  function CountOf(m: map<string, nat>, k: string): nat {
    if k in m then m[k] else 0
  }

  function SumCounts(m: map<string, nat>, names: seq<string>): nat {
    if names == [] then 0 else CountOf(m, names[0]) + SumCounts(m, names[1..])
  }

  lemma {:induction false} SumCountsBump(m: map<string, nat>, names: seq<string>, k: string)
    ensures SumCounts(Bump(m, k), names) == SumCounts(m, names) + multiset(names)[k]
  {
    if names != [] {
      SumCountsBump(m, names[1..], k);
      assert names == [names[0]] + names[1..];
    }
  }

  lemma {:induction false} SumCountsOfNothing(names: seq<string>)
    ensures SumCounts(map[], names) == 0
  {
    if names != [] {
      SumCountsOfNothing(names[1..]);
    }
  }

  lemma DoneStatusesDistinct(status: string)
    ensures multiset(DoneStatuses)[status] == if IsDone(status) then 1 else 0
  {
  }

  /** The done count agrees with the status grouping: it is the sum of the
      counts of the five done status names. */
  lemma {:induction false} DoneCountFromStatusTally(issues: seq<JiraIssue>)
    ensures DoneCount(issues) == SumCounts(Tally(issues, ByStatus), DoneStatuses)
  {
    if issues == [] {
      SumCountsOfNothing(DoneStatuses);
    } else {
      var init, last := issues[..|issues| - 1], issues[|issues| - 1];
      DoneCountFromStatusTally(init);
      assert Tally(issues, ByStatus) == Bump(Tally(init, ByStatus), StatusName(last));
      assert DoneCount(issues) == DoneCount(init) + (if IsDone(StatusName(last)) then 1 else 0);
      SumCountsBump(Tally(init, ByStatus), DoneStatuses, StatusName(last));
      DoneStatusesDistinct(StatusName(last));
      assert SumCounts(Tally(issues, ByStatus), DoneStatuses)
          == SumCounts(Tally(init, ByStatus), DoneStatuses) + multiset(DoneStatuses)[StatusName(last)];
    }
  }

  // ---------------------------------------------------------------------
  // Properties of the non-done list and the counters
  // ---------------------------------------------------------------------

  /** Done and not-done issues partition the input. */
  lemma {:induction false} NonDoneTicketsLength(issues: seq<JiraIssue>)
    ensures |NonDoneTickets(issues)| + DoneCount(issues) == |issues|
  {
    if issues != [] {
      NonDoneTicketsLength(issues[..|issues| - 1]);
    }
  }

  /** The list is an order-preserving filter: it distributes over
      concatenation, and one issue contributes its ticket exactly when it is
      not done. */
  lemma {:induction false} NonDoneTicketsConcat(a: seq<JiraIssue>, b: seq<JiraIssue>)
    ensures NonDoneTickets(a + b) == NonDoneTickets(a) + NonDoneTickets(b)
    decreases |b|
  {
    if b == [] {
      assert a + b == a;
    } else {
      var ab, binit, last := a + b, b[..|b| - 1], b[|b| - 1];
      assert ab[..|ab| - 1] == a + binit;
      assert ab[|ab| - 1] == last;
      NonDoneTicketsConcat(a, binit);
      var tail := if IsDone(StatusName(last)) then [] else [ToTicket(last)];
      calc {
        NonDoneTickets(ab);
        NonDoneTickets(a + binit) + tail;
        NonDoneTickets(a) + NonDoneTickets(binit) + tail;
        NonDoneTickets(a) + (NonDoneTickets(binit) + tail);
        NonDoneTickets(a) + NonDoneTickets(b);
      }
    }
  }

  lemma NonDoneTicketsOfOne(issue: JiraIssue)
    ensures NonDoneTickets([issue]) == if IsDone(StatusName(issue)) then [] else [ToTicket(issue)]
  {
    assert [issue][..0] == [];
  }

  /** Every listed ticket is the record of a child issue that is not done, and
      every such issue is listed. */
  lemma {:induction false} NonDoneTicketsMembers(issues: seq<JiraIssue>)
    ensures forall t :: t in NonDoneTickets(issues) ==>
              !IsDone(t.status) && exists i :: 0 <= i < |issues| && t == ToTicket(issues[i])
    ensures forall i :: 0 <= i < |issues| && !IsDone(StatusName(issues[i])) ==> ToTicket(issues[i]) in NonDoneTickets(issues)
  {
    if issues != [] {
      var init, last := issues[..|issues| - 1], issues[|issues| - 1];
      NonDoneTicketsMembers(init);
      forall t | t in NonDoneTickets(issues)
        ensures !IsDone(t.status) && exists i :: 0 <= i < |issues| && t == ToTicket(issues[i])
      {
        if t in NonDoneTickets(init) {
          var i :| 0 <= i < |init| && t == ToTicket(init[i]);
          assert init[i] == issues[i];
        } else {
          assert t == ToTicket(last);
        }
      }
      forall i | 0 <= i < |issues| && !IsDone(StatusName(issues[i]))
        ensures ToTicket(issues[i]) in NonDoneTickets(issues)
      {
        if i < |init| {
          assert init[i] == issues[i];
        }
      }
    }
  }

  function NullAssigneeCount(tickets: seq<Ticket>): nat {
    if tickets == [] then 0
    else NullAssigneeCount(tickets[..|tickets| - 1]) + (if tickets[|tickets| - 1].assignee.None? then 1 else 0)
  }

  function DoneUnassignedCount(issues: seq<JiraIssue>): nat {
    if issues == [] then 0
    else
      var last := issues[|issues| - 1];
      DoneUnassignedCount(issues[..|issues| - 1]) + (if IsDone(StatusName(last)) && AssigneeName(last).None? then 1 else 0)
  }

  /** Unassigned issues are counted whether done or not: the count is the
      unassigned listed tickets plus the unassigned done issues. */
  lemma {:induction false} UnassignedCountsDoneIssuesToo(issues: seq<JiraIssue>)
    ensures UnassignedCount(issues) == NullAssigneeCount(NonDoneTickets(issues)) + DoneUnassignedCount(issues)
  {
    if issues != [] {
      var init, last := issues[..|issues| - 1], issues[|issues| - 1];
      UnassignedCountsDoneIssuesToo(init);
      var ts := NonDoneTickets(issues);
      if IsDone(StatusName(last)) {
        assert ts == NonDoneTickets(init);
      } else {
        assert ts == NonDoneTickets(init) + [ToTicket(last)];
        assert ts[..|ts| - 1] == NonDoneTickets(init);
        assert ts[|ts| - 1].assignee == AssigneeName(last);
      }
    }
  }

  /** What the report promises, gathered. */
  lemma SummaryIsConsistent(epic: JiraIssue, issues: seq<JiraIssue>)
    ensures var s := Summarize(epic, issues);
            && s.epic == epic
            && s.totalIssues == |issues|
            && s.doneIssues + s.nonDoneIssues == s.totalIssues
            && |s.nonDoneTickets| == s.nonDoneIssues
            && s.doneIssues == SumCounts(s.issuesByStatus, DoneStatuses)
            && SumValues(s.issuesByStatus) == s.totalIssues
            && SumValues(s.issuesByType) == s.totalIssues
            && SumValues(s.issuesByPriority) == s.totalIssues
            && s.unassignedIssues <= s.totalIssues
  {
    NonDoneTicketsLength(issues);
    DoneCountFromStatusTally(issues);
    TallySum(issues, ByStatus);
    TallySum(issues, ByType);
    TallySum(issues, ByPriority);
  }

  /** Two done children around one in progress: two done, one listed. */
  lemma {:induction false} DoneInProgressDoneScenario(epic: JiraIssue, a: JiraIssue, b: JiraIssue, c: JiraIssue)
    requires StatusName(a) == "Done" && StatusName(b) == "In Progress" && StatusName(c) == "Done"
    ensures var s := Summarize(epic, [a, b, c]);
            && s.totalIssues == 3 && s.doneIssues == 2 && s.nonDoneIssues == 1
            && s.nonDoneTickets == [ToTicket(b)]
            && s.issuesByStatus == map["Done" := 2, "In Progress" := 1]
  {
    var one, two, three := [a], [a, b], [a, b, c];
    assert three[..2] == two && two[..1] == one && one[..0] == [];
    assert !IsDone("In Progress") && IsDone("Done");
    assert DoneCount(one) == 1 && DoneCount(two) == 1 && DoneCount(three) == 2;
    assert NonDoneTickets(one) == [];
    assert NonDoneTickets(two) == NonDoneTickets(one) + [ToTicket(b)] == [ToTicket(b)];
    assert NonDoneTickets(three) == [ToTicket(b)];
    assert Tally(one, ByStatus) == map["Done" := 1];
    assert Tally(two, ByStatus) == map["Done" := 1, "In Progress" := 1];
    assert Tally(three, ByStatus) == map["Done" := 2, "In Progress" := 1];
  }

  // ---------------------------------------------------------------------
  // The pass
  // ---------------------------------------------------------------------

  /** How each accumulator's specification grows by one issue. */
  lemma PrefixStep(issues: seq<JiraIssue>, i: nat)
    requires i < |issues|
    ensures var issue, pre, next := issues[i], issues[..i], issues[..i + 1];
            && Tally(next, ByStatus) == Bump(Tally(pre, ByStatus), StatusName(issue))
            && Tally(next, ByType) == Bump(Tally(pre, ByType), TypeName(issue))
            && Tally(next, ByPriority) == Bump(Tally(pre, ByPriority), PriorityName(issue))
            && DoneCount(next) == DoneCount(pre) + (if IsDone(StatusName(issue)) then 1 else 0)
            && UnassignedCount(next) == UnassignedCount(pre) + (if AssigneeName(issue).None? then 1 else 0)
            && NonDoneTickets(next) == NonDoneTickets(pre) + (if IsDone(StatusName(issue)) then [] else [ToTicket(issue)])
  {
    assert issues[..i + 1][..i] == issues[..i];
  }

  /** `getEpicSummary`'s `forEach` over the search result (src/services/jira.ts:224-293). */
  method SummarizeIssues(epic: JiraIssue, issues: seq<JiraIssue>) returns (summary: EpicSummary)
    ensures summary == Summarize(epic, issues)
  {
    var issuesByStatus: map<string, nat> := map[];
    var issuesByType: map<string, nat> := map[];
    var issuesByPriority: map<string, nat> := map[];
    var doneIssues: nat := 0;
    var unassignedIssues: nat := 0;
    var nonDoneTickets: seq<Ticket> := [];
    for i := 0 to |issues|
      invariant issuesByStatus == Tally(issues[..i], ByStatus)
      invariant issuesByType == Tally(issues[..i], ByType)
      invariant issuesByPriority == Tally(issues[..i], ByPriority)
      invariant doneIssues == DoneCount(issues[..i])
      invariant unassignedIssues == UnassignedCount(issues[..i])
      invariant nonDoneTickets == NonDoneTickets(issues[..i])
    {
      var issue := issues[i];
      PrefixStep(issues, i);
      var status := issue.fields.status.name;
      var issueType := issue.fields.issuetype.name;
      var priority := if issue.fields.priority.Some? && issue.fields.priority.value.name != ""
                      then issue.fields.priority.value.name else "None";
      var assignee := if issue.fields.assignee.Some? && issue.fields.assignee.value.displayName != ""
                      then Some(issue.fields.assignee.value.displayName) else None;
      assert status == StatusName(issue) && issueType == TypeName(issue);
      assert priority == PriorityName(issue) && assignee == AssigneeName(issue);

      issuesByStatus := Bump(issuesByStatus, status);
      issuesByType := Bump(issuesByType, issueType);
      issuesByPriority := Bump(issuesByPriority, priority);

      var isDone := status in DoneStatuses;
      if isDone {
        doneIssues := doneIssues + 1;
      } else {
        nonDoneTickets := nonDoneTickets + [Ticket(issue.key, issue.fields.summary, status, issueType, priority, assignee)];
      }

      if assignee.None? {
        unassignedIssues := unassignedIssues + 1;
      }
    }
    assert issues[..|issues|] == issues;
    var totalIssues := |issues|;
    summary := EpicSummary(
      epic, totalIssues, totalIssues - doneIssues, doneIssues,
      issuesByStatus, issuesByType, issuesByPriority, unassignedIssues, nonDoneTickets);
  }

  /** `getEpicSummary(epicKey)` as a whole: issue `epicKey` is fetched first,
      and only when that succeeds is the search `EpicSummaryQuery(epicKey)`
      made; either failure is thrown unchanged. The service calls are the
      parameters `fetch` (`getIssue`) and `search` (`searchIssues`). */
  method GetEpicSummary(epicKey: string, fetch: string -> Result<JiraIssue, Thrown>,
                        search: JiraSearchParams -> Result<JiraSearchResponse, Thrown>)
    returns (r: Result<EpicSummary, Thrown>)
    ensures fetch(epicKey).Failure? ==> r == Failure(fetch(epicKey).error)
    ensures fetch(epicKey).Success? && search(EpicSummaryQuery(epicKey)).Failure? ==>
              r == Failure(search(EpicSummaryQuery(epicKey)).error)
    ensures fetch(epicKey).Success? && search(EpicSummaryQuery(epicKey)).Success? ==>
              r == Success(Summarize(fetch(epicKey).value, search(EpicSummaryQuery(epicKey)).value.issues))
  {
    var epic := fetch(epicKey);
    if epic.Failure? {
      return Failure(epic.error);
    }
    var allIssuesResponse := search(EpicSummaryQuery(epicKey));
    if allIssuesResponse.Failure? {
      return Failure(allIssuesResponse.error);
    }
    var summary := SummarizeIssues(epic.value, allIssuesResponse.value.issues);
    r := Success(summary);
  }
}
