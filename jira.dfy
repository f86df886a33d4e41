/** The Jira integration: the connection settings and how an issue of a search becomes a work item. */
module Jira {
  import opened Wrappers
  import opened WorkItems
  import opened Adf

  /** What `JiraProvider::new` keeps (the HTTP client aside). */
  datatype JiraProvider = JiraProvider(baseUrl: string, authHeader: string)

  /** `JiraProvider::name` */
  const Name := "Jira"

  const Scheme := "https://"
  const CloudHost := ".atlassian.net"
  const BasicPrefix := "Basic "
  const BrowsePath := "/browse/"

  /** `JiraProvider::new`: the site of the domain, and basic authentication with the base64 form of
      "email:token" (`base64` is the standard encoder). */
  function New(domain: string, email: string, apiToken: string, base64: string -> string): (p: JiraProvider)
    ensures Scheme <= p.baseUrl && |p.baseUrl| == |Scheme| + |domain| + |CloudHost|
    ensures BasicPrefix <= p.authHeader
  {
    JiraProvider(Scheme + domain + CloudHost, BasicPrefix + base64(email + ":" + apiToken))
  }

  /** The domain can be read back from the base URL, and the encoded credentials from the header. */
  lemma NewRoundTrip(domain: string, email: string, apiToken: string, base64: string -> string)
    ensures var p := New(domain, email, apiToken, base64);
            && p.baseUrl[|Scheme|..|p.baseUrl| - |CloudHost|] == domain
            && p.baseUrl[|p.baseUrl| - |CloudHost|..] == CloudHost
            && p.authHeader[|BasicPrefix|..] == base64(email + ":" + apiToken)
  {
    var p := New(domain, email, apiToken, base64);
    assert p.baseUrl == Scheme + domain + CloudHost;
    assert p.baseUrl[|Scheme|..|p.baseUrl| - |CloudHost|] == domain;
  }

  /** A decoded search hit; a status, a priority and a project are each represented by their name. */
  datatype JiraIssue = JiraIssue(
    key: string,
    summary: Option<string>,
    description: Option<Json>,
    status: Option<string>,
    priority: Option<string>,
    labels: seq<string>,
    project: Option<string>)

  /** The web page of an issue: the base URL, "/browse/" and the key. */
  function BrowseUrl(baseUrl: string, key: string): (url: string)
    ensures |url| == |baseUrl| + |BrowsePath| + |key| && baseUrl <= url
    ensures url[|baseUrl|..|baseUrl| + |BrowsePath|] == BrowsePath
    ensures url[|baseUrl| + |BrowsePath|..] == key
  {
    var url := baseUrl + BrowsePath + key;
    assert url[|baseUrl|..|baseUrl| + |BrowsePath|] == BrowsePath;
    url
  }

  /** The extracted text of the ADF description, cut to 500 characters. */
  function Description(d: Option<Json>): (r: Option<string>)
    ensures r.Some? <==> d.Some? && HasText(d.value)
    ensures r.Some? ==> r == Excerpt(ExtractText(d.value))
  {
    match d
    case None => None
    case Some(doc) => TextFoundIffPresent(doc); Excerpt(ExtractText(doc))
  }

  /** The mapping closure of `fetch_items`: the item is identified by the issue key, always links to the
      issue's page, has an empty title when there is no summary, and takes the status, priority and
      project names. */
  function IssueToItem(p: JiraProvider, issue: JiraIssue): (w: WorkItem)
    ensures w.id == issue.key && w.url == Some(BrowseUrl(p.baseUrl, issue.key))
    ensures w.source == Name && w.sourceId.None?
    ensures issue.summary.None? ==> w.title == ""
    ensures issue.summary.Some? ==> w.title == issue.summary.value
    ensures w.status == issue.status && w.priority == issue.priority && w.team == issue.project
    ensures w.labels == issue.labels
    ensures w.description == Description(issue.description)
  {
    WorkItem(
      id := issue.key,
      sourceId := None,
      title := issue.summary.GetOr(""),
      description := Description(issue.description),
      status := issue.status,
      priority := issue.priority,
      labels := issue.labels,
      source := Name,
      team := issue.project,
      url := Some(BrowseUrl(p.baseUrl, issue.key)))
  }

  /** The items of one search: one per issue, in the order the issues came. */
  function JiraItems(p: JiraProvider, issues: seq<JiraIssue>): (items: seq<WorkItem>)
    ensures |items| == |issues|
    ensures forall i :: 0 <= i < |issues| ==> items[i] == IssueToItem(p, issues[i])
  {
    seq(|issues|, i requires 0 <= i < |issues| => IssueToItem(p, issues[i]))
  }

  /** The key of an item can be read back from its link. */
  lemma KeyFromUrl(p: JiraProvider, issue: JiraIssue)
    ensures var w := IssueToItem(p, issue);
            w.url.Some? && w.url.value[|p.baseUrl| + |BrowsePath|..] == w.id
  {
  }
}
