/** The provider factory: one integration per configured tracker, in a fixed order. */
module Providers {
  import opened Wrappers
  import Linear
  import Trello
  import Jira
  import GitHub

  datatype LinearConfig = LinearConfig(apiKey: string)
  datatype TrelloConfig = TrelloConfig(apiKey: string, token: string)
  datatype JiraConfig = JiraConfig(domain: string, email: string, apiToken: string)
  datatype GitHubConfig = GitHubConfig(owner: string)

  /** The tracker sections of the configuration; each is present or absent. */
  datatype AppConfig = AppConfig(
    linear: Option<LinearConfig>,
    trello: Option<TrelloConfig>,
    jira: Option<JiraConfig>,
    github: Option<GitHubConfig>)

  /** A constructed integration with the settings it keeps. */
  datatype Provider =
    | LinearProvider(apiKey: string)
    | TrelloProvider(apiKey: string, token: string)
    | JiraProvider(settings: Jira.JiraProvider)
    | GitHubProvider(owner: string)

  /** `Provider::name` */
  function Name(p: Provider): (name: string)
    ensures name in ["Linear", "Trello", "Jira", "GitHub"]
  {
    match p
    case LinearProvider(_) => Linear.Name
    case TrelloProvider(_, _) => Trello.Name
    case JiraProvider(_) => Jira.Name
    case GitHubProvider(_) => GitHub.Name
  }

  /** The position of a kind of integration in the factory's order. */
  function Rank(p: Provider): (k: nat)
    ensures k < 4
  {
    match p
    case LinearProvider(_) => 0
    case TrelloProvider(_, _) => 1
    case JiraProvider(_) => 2
    case GitHubProvider(_) => 3
  }

  /** Each kind of integration has its own name. */
  lemma NamesDistinct(p: Provider, q: Provider)
    requires Rank(p) != Rank(q)
    ensures Name(p) != Name(q)
  {
  }

  function Section<T>(section: Option<T>, make: T -> Provider): (r: seq<Provider>)
    ensures |r| == if section.Some? then 1 else 0
    ensures section.Some? ==> r == [make(section.value)]
  {
    match section
    case Some(cfg) => [make(cfg)]
    case None => []
  }

  function MakeLinear(cfg: LinearConfig): Provider { LinearProvider(cfg.apiKey) }
  function MakeTrello(cfg: TrelloConfig): Provider { TrelloProvider(cfg.apiKey, cfg.token) }
  function MakeGitHub(cfg: GitHubConfig): Provider { GitHubProvider(cfg.owner) }

  /** The Jira settings of a section, with `base64` the standard encoder. */
  function MakeJira(base64: string -> string): JiraConfig -> Provider {
    (cfg: JiraConfig) => JiraProvider(Jira.New(cfg.domain, cfg.email, cfg.apiToken, base64))
  }

  /** The providers the configuration asks for: the present sections in the order Linear, Trello, Jira,
      GitHub. */
  function Created(config: AppConfig, base64: string -> string): seq<Provider> {
    Section(config.linear, MakeLinear) + Section(config.trello, MakeTrello)
    + Section(config.jira, MakeJira(base64))
    + Section(config.github, MakeGitHub)
  }

  /** `create_providers`: one push per present section. */
  method CreateProviders(config: AppConfig, base64: string -> string) returns (providers: seq<Provider>)
    ensures providers == Created(config, base64)
  {
    providers := [];
    if config.linear.Some? {
      providers := providers + [LinearProvider(config.linear.value.apiKey)];
    }
    if config.trello.Some? {
      var cfg := config.trello.value;
      providers := providers + [TrelloProvider(cfg.apiKey, cfg.token)];
    }
    if config.jira.Some? {
      var cfg := config.jira.value;
      providers := providers + [JiraProvider(Jira.New(cfg.domain, cfg.email, cfg.apiToken, base64))];
    }
    if config.github.Some? {
      providers := providers + [GitHubProvider(config.github.value.owner)];
    }
  }

  /** The number of tracker sections present. */
  function PresentSections(config: AppConfig): nat {
    (if config.linear.Some? then 1 else 0) + (if config.trello.Some? then 1 else 0)
    + (if config.jira.Some? then 1 else 0) + (if config.github.Some? then 1 else 0)
  }

  /** Each present section gives one provider and each absent one none. */
  lemma OnePerSection(config: AppConfig, base64: string -> string)
    ensures |Created(config, base64)| == PresentSections(config)
  {
  }

  /** The providers come in the fixed order Linear, Trello, Jira, GitHub, so no kind appears twice. */
  lemma FixedOrder(config: AppConfig, base64: string -> string)
    ensures var ps := Created(config, base64);
            forall i, j :: 0 <= i < j < |ps| ==> Rank(ps[i]) < Rank(ps[j])
  {
  }

  /** A kind of provider is created exactly when its section is present, and from that section. */
  lemma CreatedFromSections(config: AppConfig, base64: string -> string)
    ensures var ps := Created(config, base64);
            && ((exists i :: 0 <= i < |ps| && ps[i].LinearProvider?) <==> config.linear.Some?)
            && ((exists i :: 0 <= i < |ps| && ps[i].TrelloProvider?) <==> config.trello.Some?)
            && ((exists i :: 0 <= i < |ps| && ps[i].JiraProvider?) <==> config.jira.Some?)
            && ((exists i :: 0 <= i < |ps| && ps[i].GitHubProvider?) <==> config.github.Some?)
    ensures var ps := Created(config, base64);
            forall i :: 0 <= i < |ps| ==> match ps[i]
              case LinearProvider(key) => config.linear == Some(LinearConfig(key))
              case TrelloProvider(key, token) => config.trello == Some(TrelloConfig(key, token))
              case JiraProvider(settings) =>
                config.jira.Some? &&
                settings == Jira.New(config.jira.value.domain, config.jira.value.email, config.jira.value.apiToken, base64)
              case GitHubProvider(owner) => config.github == Some(GitHubConfig(owner))
  {
    var ps := Created(config, base64);
    var l, t, j := Section(config.linear, MakeLinear), Section(config.trello, MakeTrello), Section(config.jira, MakeJira(base64));
    if config.linear.Some? {
      assert ps[0].LinearProvider?;
    }
    if config.trello.Some? {
      assert ps[|l|].TrelloProvider?;
    }
    if config.jira.Some? {
      assert ps[|l| + |t|].JiraProvider?;
    }
    if config.github.Some? {
      assert ps[|l| + |t| + |j|].GitHubProvider?;
    }
  }

  /** A configuration without tracker sections yields no providers. */
  lemma NoSectionsNoProviders(base64: string -> string)
    ensures Created(AppConfig(None, None, None, None), base64) == []
  {
  }
}
