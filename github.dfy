/** The GitHub integration: how an issue found by `gh search issues` becomes a work item. */
module GitHub {
  import opened Wrappers
  import opened Text
  import opened WorkItems

  /** The `u64` an issue number arrives as. */
  newtype u64 = x: int | 0 <= x < 0x1_0000_0000_0000_0000

  /** A decoded issue; a label is represented by its name, a repository by its "owner/name". */
  datatype GhIssue = GhIssue(
    number: u64,
    title: string,
    body: Option<string>,
    state: Option<string>,
    url: Option<string>,
    labels: seq<string>,
    repository: Option<string>)

  /** `GitHubProvider::name` */
  const Name := "GitHub"

  /** `format!("#{}", number)` */
  function IssueId(number: u64): (id: string)
    ensures |id| >= 2 && id[0] == '#'
    ensures forall i :: 1 <= i < |id| ==> IsDigit(id[i])
  {
    "#" + NatToString(number as nat)
  }

  /** The number can be read back from the id. */
  lemma IssueIdRoundTrip(number: u64)
    ensures var id := IssueId(number); ParseDecimal(id[1..]) == number as nat
  {
    assert IssueId(number)[1..] == NatToString(number as nat);
    DecimalRoundTrip(number as nat);
  }

  /** Distinct issue numbers give distinct ids. */
  lemma IssueIdInjective(m: u64, n: u64)
    requires IssueId(m) == IssueId(n)
    ensures m == n
  {
    assert IssueId(m)[1..] == NatToString(m as nat);
    assert IssueId(n)[1..] == NatToString(n as nat);
    NatToStringInjective(m as nat, n as nat);
  }

  /** The mapping closure of `fetch_items`: the id is "#" and the number, a blank body counts as no
      description, labels keep their order, the team is the repository, there is no priority, and the
      item is marked as coming from GitHub. */
  function IssueToItem(issue: GhIssue): (w: WorkItem)
    ensures w.id == IssueId(issue.number) && w.title == issue.title
    ensures w.source == Name && w.sourceId.None? && w.priority.None?
    ensures w.status == issue.state && w.url == issue.url
    ensures w.labels == issue.labels && w.team == issue.repository
    ensures w.description == NonBlankExcerpt(issue.body)
    ensures w.description.None? <==> issue.body.None? || IsBlank(issue.body.value)
    ensures w.description.Some? ==> (w.description.value <= issue.body.value &&
                                     |w.description.value| <= DescriptionLimit)
  {
    WorkItem(
      id := IssueId(issue.number),
      sourceId := None,
      title := issue.title,
      description := NonBlankExcerpt(issue.body),
      status := issue.state,
      priority := None,
      labels := issue.labels,
      source := Name,
      team := issue.repository,
      url := issue.url)
  }

  /** The items of one search: one per issue, in the order the issues came. */
  function GitHubItems(issues: seq<GhIssue>): (items: seq<WorkItem>)
    ensures |items| == |issues|
    ensures forall i :: 0 <= i < |issues| ==> items[i] == IssueToItem(issues[i])
  {
    seq(|issues|, i requires 0 <= i < |issues| => IssueToItem(issues[i]))
  }

  /** Issue 42 is item "#42". */
  lemma IdExample()
    ensures IssueId(42) == "#42"
  {
    assert NatToString(4) == "4";
    assert NatToString(42) == NatToString(4) + [DigitChar(2)];
  }
}
