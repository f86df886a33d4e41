/** The prompt an agent is started with. */
module Prompt {
  import opened Wrappers
  import opened Text
  import opened Agents
  import opened Personalities
  import opened WorkItems

  /** The labels as the prompt shows them. */
  function LabelsText(labels: seq<string>): (r: string)
    ensures labels == [] ==> r == "none"
    ensures labels != [] ==> r == Join(labels, ", ")
  {
    if labels == [] then "none" else Join(labels, ", ")
  }

  const ReadStep := "1. Read CLAUDE.md in the project root for conventions and context."
  const ImplementStep := "2. Implement the task described above."
  const TestStep := "3. Write tests for your changes."
  const CargoStep := "4. Run `cargo test` and ensure all tests pass."
  const CommitStep := "5. Commit your changes with a message "
  const RebaseStep := "6. Run `git fetch origin main && git rebase origin/main`."
  const PushStep := "7. Run `git push origin HEAD:main`."
  const Autonomy := "Work autonomously. Do not ask for clarification — make reasonable decisions."
  const TaskIntro := " working on the following task. Your personality: "

  /** The lines of the prompt for the agent shown as `name` with personality `p`; `build_prompt` writes
      them separated by line breaks. */
  function PromptLines(item: WorkItem, name: string, p: Personality): (lines: seq<string>)
    ensures |lines| == 29
  {
    [ ("You are agent \"" + name + "\"") + (TaskIntro + p.tagline + "."),
      "",
      "# " + item.title,
      "- ID: " + item.id,
      "- Source: " + item.source,
      "- URL: " + item.url.GetOr("n/a"),
      "- Priority: " + item.priority.GetOr("n/a"),
      "- Labels: " + LabelsText(item.labels),
      "- Status: " + item.status.GetOr("n/a"),
      "- Team: " + item.team.GetOr("n/a"),
      "",
      "## Description",
      item.description.GetOr("No description provided."),
      "",
      "## Instructions",
      ReadStep,
      ImplementStep,
      TestStep,
      CargoStep,
      CommitStep + ("referencing " + item.id) + ".",
      RebaseStep,
      PushStep,
      "",
      Autonomy,
      "",
      "## " + ("Personality: " + p.tagline),
      "- Focus: " + p.focus,
      "- Traits: " + Join(p.traits, ", "),
      "- Working style: " + p.systemPrompt ]
  }

  /** The prompt for the agent shown as `name` with personality `p`. */
  function PromptFor(item: WorkItem, name: string, p: Personality): string {
    Join(PromptLines(item, name, p), "\n")
  }

  /** `build_prompt` */
  function BuildPrompt(item: WorkItem, agent: AgentName): string {
    PromptFor(item, DisplayName(agent), PersonalityOf(agent))
  }

  /** A string put in front keeps every occurrence. */
  lemma ContainsAfter(x: string, s: string, t: string)
    requires Contains(s, t)
    ensures Contains(x + s, t)
  {
    var i :| 0 <= i <= |s| && t <= s[i..];
    assert (x + s)[|x| + i..] == s[i..];
  }

  /** An occurrence inside an occurrence is an occurrence. */
  lemma ContainsTransitive(s: string, t: string, u: string)
    requires Contains(s, t) && Contains(t, u)
    ensures Contains(s, u)
  {
    var i :| 0 <= i <= |s| && t <= s[i..];
    var j :| 0 <= j <= |t| && u <= t[j..];
    assert u <= s[i + j..] by {
      forall k | 0 <= k < |u| ensures s[i + j..][k] == u[k] {
        assert s[i + j..][k] == s[i..][j + k] == t[j + k] == t[j..][k];
      }
    }
  }

  /** Every part of a join occurs in it. */
  lemma {:induction false} JoinContainsPart(parts: seq<string>, sep: string, k: nat)
    requires k < |parts|
    ensures Contains(Join(parts, sep), parts[k])
    decreases |parts|
  {
    if |parts| == 1 {
      assert parts[k] <= Join(parts, sep)[0..];
    } else if k == 0 {
      var rest := sep + Join(parts[1..], sep);
      assert Join(parts, sep) == parts[0] + rest;
      assert parts[0] <= Join(parts, sep)[0..];
    } else {
      JoinContainsPart(parts[1..], sep, k - 1);
      ContainsAfter(parts[0] + sep, Join(parts[1..], sep), parts[k]);
    }
  }

  /** Each line of the prompt occurs in it. */
  lemma LineIn(item: WorkItem, name: string, p: Personality, k: nat, line: string)
    requires k < 29 && PromptLines(item, name, p)[k] == line
    ensures Contains(PromptFor(item, name, p), line)
  {
    JoinContainsPart(PromptLines(item, name, p), "\n", k);
  }

  lemma ContainsStart(t: string, b: string)
    ensures Contains(t + b, t)
  {
    assert t <= (t + b)[0..];
  }

  lemma ContainsEnd(a: string, t: string)
    ensures Contains(a + t, t)
  {
    assert t <= (a + t)[|a|..];
  }

  /** The prompt opens by naming the agent by its display name. */
  lemma PromptNamesAgent(item: WorkItem, agent: AgentName)
    ensures Contains(BuildPrompt(item, agent), "You are agent \"" + DisplayName(agent) + "\"")
  {
    NamedIn(item, DisplayName(agent), PersonalityOf(agent));
  }

  lemma NamedIn(item: WorkItem, name: string, p: Personality)
    ensures Contains(PromptFor(item, name, p), "You are agent \"" + name + "\"")
  {
    var intro := "You are agent \"" + name + "\"";
    var line := intro + (TaskIntro + p.tagline + ".");
    LineIn(item, name, p, 0, line);
    ContainsStart(intro, TaskIntro + p.tagline + ".");
    ContainsTransitive(PromptFor(item, name, p), line, intro);
  }

  /** The item id appears on the ID line and in the commit step. */
  lemma PromptCarriesId(item: WorkItem, agent: AgentName)
    ensures Contains(BuildPrompt(item, agent), "- ID: " + item.id)
    ensures Contains(BuildPrompt(item, agent), "referencing " + item.id)
  {
    IdIn(item, DisplayName(agent), PersonalityOf(agent));
  }

  lemma IdIn(item: WorkItem, name: string, p: Personality)
    ensures Contains(PromptFor(item, name, p), "- ID: " + item.id)
    ensures Contains(PromptFor(item, name, p), "referencing " + item.id)
  {
    LineIn(item, name, p, 3, "- ID: " + item.id);
    ReferencedIn(item, name, p);
  }

  lemma ReferencedIn(item: WorkItem, name: string, p: Personality)
    ensures Contains(PromptFor(item, name, p), "referencing " + item.id)
  {
    var commit := CommitStep + ("referencing " + item.id) + ".";
    LineIn(item, name, p, 19, commit);
    ContainsMiddle(CommitStep, "referencing " + item.id, ".");
    ContainsTransitive(PromptFor(item, name, p), commit, "referencing " + item.id);
  }

  /** The personality section shows the tagline, the focus, the traits and the working style. */
  lemma PromptShowsPersonality(item: WorkItem, agent: AgentName)
    ensures var p := PersonalityOf(agent);
            && Contains(BuildPrompt(item, agent), "Personality: " + p.tagline)
            && Contains(BuildPrompt(item, agent), p.focus)
            && Contains(BuildPrompt(item, agent), "- Traits: " + Join(p.traits, ", "))
            && Contains(BuildPrompt(item, agent), "- Working style: " + p.systemPrompt)
  {
    PersonalityIn(item, DisplayName(agent), PersonalityOf(agent));
  }

  lemma PersonalityIn(item: WorkItem, name: string, p: Personality)
    ensures Contains(PromptFor(item, name, p), "Personality: " + p.tagline)
    ensures Contains(PromptFor(item, name, p), p.focus)
    ensures Contains(PromptFor(item, name, p), "- Traits: " + Join(p.traits, ", "))
    ensures Contains(PromptFor(item, name, p), "- Working style: " + p.systemPrompt)
  {
    var prompt := PromptFor(item, name, p);
    var heading := "## " + ("Personality: " + p.tagline);
    LineIn(item, name, p, 25, heading);
    ContainsEnd("## ", "Personality: " + p.tagline);
    ContainsTransitive(prompt, heading, "Personality: " + p.tagline);
    var focus := "- Focus: " + p.focus;
    LineIn(item, name, p, 26, focus);
    ContainsEnd("- Focus: ", p.focus);
    ContainsTransitive(prompt, focus, p.focus);
    LineIn(item, name, p, 27, "- Traits: " + Join(p.traits, ", "));
    LineIn(item, name, p, 28, "- Working style: " + p.systemPrompt);
  }

  /** Missing fields are shown as "n/a", no labels as "none" and a missing description as "No description
      provided."; present ones are shown as they are. */
  lemma PromptDefaults(item: WorkItem, agent: AgentName)
    ensures var prompt := BuildPrompt(item, agent);
            && Contains(prompt, "- URL: " + item.url.GetOr("n/a"))
            && Contains(prompt, "- Priority: " + item.priority.GetOr("n/a"))
            && Contains(prompt, "- Status: " + item.status.GetOr("n/a"))
            && Contains(prompt, "- Team: " + item.team.GetOr("n/a"))
            && Contains(prompt, "- Labels: " + LabelsText(item.labels))
            && Contains(prompt, item.description.GetOr("No description provided."))
  {
    DefaultsIn(item, DisplayName(agent), PersonalityOf(agent));
  }

  lemma DefaultsIn(item: WorkItem, name: string, p: Personality)
    ensures var prompt := PromptFor(item, name, p);
            && Contains(prompt, "- URL: " + item.url.GetOr("n/a"))
            && Contains(prompt, "- Priority: " + item.priority.GetOr("n/a"))
            && Contains(prompt, "- Status: " + item.status.GetOr("n/a"))
            && Contains(prompt, "- Team: " + item.team.GetOr("n/a"))
            && Contains(prompt, "- Labels: " + LabelsText(item.labels))
            && Contains(prompt, item.description.GetOr("No description provided."))
  {
    FieldsIn(item, name, p);
    StateIn(item, name, p);
    DescribedIn(item, name, p);
  }

  lemma FieldsIn(item: WorkItem, name: string, p: Personality)
    ensures Contains(PromptFor(item, name, p), "- URL: " + item.url.GetOr("n/a"))
    ensures Contains(PromptFor(item, name, p), "- Priority: " + item.priority.GetOr("n/a"))
  {
    LineIn(item, name, p, 5, "- URL: " + item.url.GetOr("n/a"));
    LineIn(item, name, p, 6, "- Priority: " + item.priority.GetOr("n/a"));
  }

  lemma StateIn(item: WorkItem, name: string, p: Personality)
    ensures Contains(PromptFor(item, name, p), "- Status: " + item.status.GetOr("n/a"))
    ensures Contains(PromptFor(item, name, p), "- Team: " + item.team.GetOr("n/a"))
  {
    LineIn(item, name, p, 8, "- Status: " + item.status.GetOr("n/a"));
    LineIn(item, name, p, 9, "- Team: " + item.team.GetOr("n/a"));
  }

  lemma DescribedIn(item: WorkItem, name: string, p: Personality)
    ensures Contains(PromptFor(item, name, p), "- Labels: " + LabelsText(item.labels))
    ensures Contains(PromptFor(item, name, p), item.description.GetOr("No description provided."))
  {
    LineIn(item, name, p, 7, "- Labels: " + LabelsText(item.labels));
    DescriptionIn(item, name, p);
  }

  lemma DescriptionIn(item: WorkItem, name: string, p: Personality)
    ensures Contains(PromptFor(item, name, p), item.description.GetOr("No description provided."))
  {
    LineIn(item, name, p, 12, item.description.GetOr("No description provided."));
  }

  /** Each missing field has its placeholder. */
  lemma Placeholders(item: WorkItem)
    ensures item.url.None? ==> item.url.GetOr("n/a") == "n/a"
    ensures item.url.Some? ==> item.url.GetOr("n/a") == item.url.value
    ensures item.description.None? ==> item.description.GetOr("No description provided.") == "No description provided."
    ensures item.labels == [] ==> LabelsText(item.labels) == "none"
  {
  }
}
