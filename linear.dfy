/** The Linear integration: how an assigned issue of the GraphQL answer becomes a work item. */
module Linear {
  import opened Wrappers
  import opened WorkItems

  /** The `u8` Linear's priority arrives as. */
  newtype u8 = x: int | 0 <= x < 256

  /** An issue node as decoded; a state, a team and a label are each represented by their name. */
  datatype Issue = Issue(
    identifier: string,
    title: string,
    description: Option<string>,
    priority: Option<u8>,
    url: Option<string>,
    state: Option<string>,
    team: Option<string>,
    labels: Option<seq<string>>)

  /** `LinearProvider::name` */
  const Name := "Linear"

  /** The priority names for the values 1 to 4. */
  const PriorityNames := ["Urgent", "High", "Medium", "Low"]

  /** `map_priority`: 1 to 4 name a priority; 0 ("no priority"), any other number and no value give
      none. */
  function MapPriority(p: Option<u8>): (r: Option<string>)
    ensures r.Some? <==> p.Some? && 1 <= p.value <= 4
    ensures r.Some? ==> r.value == PriorityNames[p.value - 1]
  {
    if p == Some(1) then Some("Urgent")
    else if p == Some(2) then Some("High")
    else if p == Some(3) then Some("Medium")
    else if p == Some(4) then Some("Low")
    else None
  }

  /** Distinct priorities keep distinct names. */
  lemma PriorityNamesDistinct(p: Option<u8>, q: Option<u8>)
    requires MapPriority(p).Some? && MapPriority(p) == MapPriority(q)
    ensures p == q
  {
  }

  /** The mapping closure of `fetch_items`: the item is identified by the issue's identifier, keeps the
      first 500 characters of the description, the label names in order and the state and team names,
      and is marked as coming from Linear. */
  function IssueToItem(issue: Issue): (w: WorkItem)
    ensures w.id == issue.identifier && w.title == issue.title && w.url == issue.url
    ensures w.source == Name && w.sourceId.None?
    ensures w.status == issue.state && w.team == issue.team
    ensures w.priority == MapPriority(issue.priority)
    ensures w.description == Excerpt(issue.description)
    ensures w.description.Some? <==> issue.description.Some?
    ensures w.description.Some? ==> (w.description.value <= issue.description.value &&
                                     |w.description.value| <= DescriptionLimit)
    ensures issue.labels.None? ==> w.labels == []
    ensures issue.labels.Some? ==> w.labels == issue.labels.value
  {
    WorkItem(
      id := issue.identifier,
      sourceId := None,
      title := issue.title,
      description := Excerpt(issue.description),
      status := issue.state,
      priority := MapPriority(issue.priority),
      labels := issue.labels.GetOr([]),
      source := Name,
      team := issue.team,
      url := issue.url)
  }

  /** The items of one answer: one per issue, in the order the issues came. */
  function LinearItems(issues: seq<Issue>): (items: seq<WorkItem>)
    ensures |items| == |issues|
    ensures forall i :: 0 <= i < |issues| ==> items[i] == IssueToItem(issues[i])
  {
    seq(|issues|, i requires 0 <= i < |issues| => IssueToItem(issues[i]))
  }

  /** Mapping two answers one after the other gives their items one after the other. */
  lemma LinearItemsConcat(a: seq<Issue>, b: seq<Issue>)
    ensures LinearItems(a + b) == LinearItems(a) + LinearItems(b)
  {
    var x, y := LinearItems(a + b), LinearItems(a) + LinearItems(b);
    assert |x| == |y|;
    forall i | 0 <= i < |x| ensures x[i] == y[i] {
      if i < |a| {
        assert (a + b)[i] == a[i];
      } else {
        assert (a + b)[i] == b[i - |a|];
      }
    }
  }
}
