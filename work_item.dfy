/** The work item every tracker integration produces and the core consumes as a value. */
module WorkItems {
  import opened Wrappers
  import opened Text

  datatype WorkItem = WorkItem(
    id: string,
    sourceId: Option<string>,
    title: string,
    description: Option<string>,
    status: Option<string>,
    priority: Option<string>,
    labels: seq<string>,
    source: string,
    team: Option<string>,
    url: Option<string>)

  /** The ids of a backlog, as a set. */
  function Ids(items: seq<WorkItem>): (ids: set<string>)
    ensures forall i :: 0 <= i < |items| ==> items[i].id in ids
    ensures forall id :: id in ids ==> exists i :: 0 <= i < |items| && items[i].id == id
  {
    set i | 0 <= i < |items| :: items[i].id
  }

  /** The position of the first item at or after `k` carrying the id. */
  function FindFrom(items: seq<WorkItem>, id: string, k: nat): (r: Option<nat>)
    requires k <= |items|
    ensures r.Some? ==> k <= r.value < |items| && items[r.value].id == id
    ensures forall j :: k <= j < |items| && (r.None? || j < r.value) ==> items[j].id != id
    decreases |items| - k
  {
    if k == |items| then None
    else if items[k].id == id then Some(k)
    else FindFrom(items, id, k + 1)
  }

  /** `items.iter().find(|i| i.id == id)`: the first item carrying the id, or None when no item does. */
  function FindById(items: seq<WorkItem>, id: string): (r: Option<WorkItem>)
    ensures r.None? <==> id !in Ids(items)
    ensures r.Some? ==> r.value.id == id &&
                        exists i :: 0 <= i < |items| && items[i] == r.value &&
                                    forall j :: 0 <= j < i ==> items[j].id != id
  {
    match FindFrom(items, id, 0)
    case Some(i) => Some(items[i])
    case None => None
  }

  /** The number of characters of a description a work item keeps. */
  const DescriptionLimit: nat := 500

  /** `d.map(|d| d.chars().take(500).collect())`: a present description is cut to its first 500
      characters, a missing one stays missing. */
  function Excerpt(d: Option<string>): (r: Option<string>)
    ensures r.Some? <==> d.Some?
    ensures r.Some? ==> r.value <= d.value && |r.value| <= DescriptionLimit
    ensures r.Some? && |d.value| <= DescriptionLimit ==> r.value == d.value
    ensures r.Some? && |d.value| > DescriptionLimit ==> |r.value| == DescriptionLimit
  {
    match d
    case Some(text) => Some(Take(text, DescriptionLimit))
    case None => None
  }

  /** `d.filter(|d| !d.trim().is_empty())` followed by the excerpt: a blank description counts as
      missing. */
  function NonBlankExcerpt(d: Option<string>): (r: Option<string>)
    ensures r.None? <==> d.None? || IsBlank(d.value)
    ensures r.Some? ==> r == Excerpt(d)
  {
    if d.Some? && Trim(d.value) != "" then Excerpt(d) else None
  }
}
