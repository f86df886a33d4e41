/** Deriving an agent's git branch and worktree directory from its name and its work item. */
module Branch {
  import opened Wrappers
  import opened Agents
  import opened Text

  /** The characters a slug is made of. */
  predicate IsSlugChar(c: char) {
    ('a' <= c <= 'z') || ('0' <= c <= '9') || c == '-'
  }

  predicate IsSlug(s: string) {
    forall i :: 0 <= i < |s| ==> IsSlugChar(s[i])
  }

  /** What `to_lowercase` followed by "ASCII alphanumerics stay, everything else becomes '-'" makes of one
      character. Lower-casing maps one character to one character except U+0130, whose lower case is
      'i' followed by a combining dot; the only other character whose lower case is ASCII alphanumeric
      is U+212A KELVIN SIGN. */
  function SlugPiece(c: char): (p: string)
    ensures 1 <= |p| <= 2 && IsSlug(p)
    ensures IsAsciiAlphanumeric(c) ==> |p| == 1 && p[0] != '-'
  {
    if 'A' <= c <= 'Z' then [(c as int + 32) as char]
    else if ('a' <= c <= 'z') || ('0' <= c <= '9') then [c]
    else if c == '\U{212A}' then "k"
    else if c == '\U{130}' then "i-"
    else "-"
  }

  /** The lower-cased, dash-substituted title, before trimming. */
  function Slugged(s: string): string {
    if s == [] then "" else SlugPiece(s[0]) + Slugged(s[1..])
  }

  /** Slugging only writes slug characters, and at least one for each character of the title. */
  lemma {:induction false} SluggedIsSlug(s: string)
    ensures IsSlug(Slugged(s))
    ensures |s| <= |Slugged(s)|
  {
    if s != [] {
      SluggedIsSlug(s[1..]);
      var p, rest := SlugPiece(s[0]), Slugged(s[1..]);
      assert forall i :: |p| <= i < |p| + |rest| ==> (p + rest)[i] == rest[i - |p|];
    }
  }

  /** The slugging is done character by character, so it distributes over concatenation. */
  lemma {:induction false} SluggedAppend(a: string, b: string)
    ensures Slugged(a + b) == Slugged(a) + Slugged(b)
  {
    if a != [] {
      assert (a + b)[0] == a[0];
      assert (a + b)[1..] == a[1..] + b;
      var p, ra, rb := SlugPiece(a[0]), Slugged(a[1..]), Slugged(b);
      calc {
        Slugged(a + b);
        p + Slugged(a[1..] + b);
        { SluggedAppend(a[1..], b); }
        p + (ra + rb);
        { ConcatAssoc(p, ra, rb); }
        (p + ra) + rb;
      }
    } else {
      assert a + b == b;
    }
  }

  lemma ConcatAssoc(x: string, y: string, z: string)
    ensures x + (y + z) == (x + y) + z
  {
  }

  /** `trim_matches('-')` at the front. */
  function TrimLeadingDashes(s: string): (r: string)
    ensures |r| <= |s| && r == s[|s| - |r|..]
    ensures r == [] || r[0] != '-'
    ensures forall i :: 0 <= i < |s| - |r| ==> s[i] == '-'
    ensures IsSlug(s) ==> IsSlug(r)
  {
    if s != [] && s[0] == '-' then TrimLeadingDashes(s[1..]) else s
  }

  /** `trim_matches('-')` at the back. */
  function TrimTrailingDashes(s: string): (r: string)
    ensures |r| <= |s| && r == s[..|r|]
    ensures r == [] || r[|r| - 1] != '-'
    ensures forall i :: |r| <= i < |s| ==> s[i] == '-'
    ensures IsSlug(s) ==> IsSlug(r)
  {
    if s != [] && s[|s| - 1] == '-' then TrimTrailingDashes(s[..|s| - 1]) else s
  }

  predicate AllDashes(s: string) {
    forall i :: 0 <= i < |s| ==> s[i] == '-'
  }

  /** `r` is `s` with some dashes removed at the front and some at the back, and nothing else. */
  ghost predicate IsDashTrimmed(s: string, r: string) {
    exists i :: 0 <= i <= |s| - |r| && r == s[i..i + |r|] && AllDashes(s[..i]) && AllDashes(s[i + |r|..])
  }

  /** `trim_matches('-')`: the text with the dashes at both ends removed and nothing else. */
  function TrimDashes(s: string): (r: string)
    ensures |r| <= |s|
    ensures r == [] || (r[0] != '-' && r[|r| - 1] != '-')
    ensures IsDashTrimmed(s, r)
    ensures IsSlug(s) ==> IsSlug(r)
  {
    var t := TrimLeadingDashes(s);
    var r := TrimTrailingDashes(t);
    DashesAround(s, |s| - |t|, r);
    r
  }

  /** A prefix `r` of the suffix of `s` from `i`, with only dashes before and after it, is `s` with
      dashes removed at both ends. */
  lemma DashesAround(s: string, i: nat, r: string)
    requires i <= |s| && |r| <= |s| - i && r == s[i..][..|r|]
    requires AllDashes(s[..i]) && AllDashes(s[i..][|r|..])
    ensures IsDashTrimmed(s, r)
  {
    assert s[i + |r|..] == s[i..][|r|..];
  }

  /** `slugify`: the slugged title with its leading and trailing dashes trimmed, cut to 40 characters. */
  function Slugify(title: string): string {
    Take(TrimDashes(Slugged(title)), 40)
  }

  /** A slug is safe in a branch name: at most 40 characters, only lower-case ASCII letters, digits and
      '-', never starting with '-', and ending with '-' only when the cut at 40 characters fell right
      after a dash. */
  lemma SlugIsBranchSafe(title: string)
    ensures |Slugify(title)| <= 40
    ensures IsSlug(Slugify(title))
    ensures Slugify(title) == [] || Slugify(title)[0] != '-'
    ensures Slugify(title) != [] && Slugify(title)[|Slugify(title)| - 1] == '-' ==>
              40 < |TrimDashes(Slugged(title))|
  {
    SluggedIsSlug(title);
    CutSlugIsSafe(TrimDashes(Slugged(title)));
  }

  /** Cutting a dash-trimmed slug at 40 characters keeps it a slug that does not start with '-'. */
  lemma CutSlugIsSafe(trimmed: string)
    requires IsSlug(trimmed) && (trimmed == [] || (trimmed[0] != '-' && trimmed[|trimmed| - 1] != '-'))
    ensures var r := Take(trimmed, 40);
            && |r| <= 40 && IsSlug(r) && (r == [] || r[0] != '-')
            && (r != [] && r[|r| - 1] == '-' ==> 40 < |trimmed|)
  {
    var r := Take(trimmed, 40);
    assert forall i :: 0 <= i < |r| ==> r[i] == trimmed[i];
  }

  /** Every alphanumeric ASCII character of the title survives, lower-cased, in the slugged text. */
  lemma {:induction false} AlphanumericsSurvive(title: string, i: nat)
    requires i < |title| && IsAsciiAlphanumeric(title[i])
    ensures exists j :: 0 <= j < |Slugged(title)| && Slugged(title)[j] == SlugPiece(title[i])[0]
  {
    if i == 0 {
      assert Slugged(title)[0] == SlugPiece(title[0])[0];
    } else {
      AlphanumericsSurvive(title[1..], i - 1);
      var j :| 0 <= j < |Slugged(title[1..])| && Slugged(title[1..])[j] == SlugPiece(title[1..][i - 1])[0];
      assert Slugged(title)[|SlugPiece(title[0])| + j] == Slugged(title[1..])[j];
    }
  }

  /** The part of a branch name that names the agent: "agent/<name>/". */
  function BranchPrefix(agent: AgentName): string {
    "agent/" + AsStr(agent) + "/"
  }

  /** `branch_name`: "agent/<name>/<first 8 characters of the id>-<slug of the title>". */
  function BranchName(agent: AgentName, itemId: string, title: string): string {
    BranchPrefix(agent) + (Take(itemId, 8) + "-" + Slugify(title))
  }

  /** A branch name starts with "agent/<name>/" and is bounded by the 8-character id and the 40-character
      slug. */
  lemma BranchNameShape(agent: AgentName, itemId: string, title: string)
    ensures BranchPrefix(agent) <= BranchName(agent, itemId, title)
    ensures |BranchName(agent, itemId, title)| <= |BranchPrefix(agent)| + 8 + 1 + 40
  {
    SlugIsBranchSafe(title);
    PrefixOfConcat(BranchPrefix(agent), Take(itemId, 8) + "-" + Slugify(title));
  }

  lemma PrefixOfConcat(p: string, q: string)
    ensures p <= p + q && |p + q| == |p| + |q|
  {
    assert (p + q)[..|p|] == p;
  }

  /** Two agents never work on the same branch, whatever items they hold. */
  lemma BranchNamesDifferAcrossAgents(a: AgentName, b: AgentName, idA: string, titleA: string,
                                      idB: string, titleB: string)
    requires a != b
    ensures BranchName(a, idA, titleA) != BranchName(b, idB, titleB)
  {
    var x := BranchName(a, idA, titleA);
    BranchNameShape(a, idA, titleA);
    BranchNameShape(b, idB, titleB);
    if x == BranchName(b, idB, titleB) {
      NoTwoNamePrefixes(a, b, x);
    }
  }

  /** At most one agent's "agent/<name>/" starts a text. */
  lemma NoTwoNamePrefixes(a: AgentName, b: AgentName, x: string)
    requires BranchPrefix(a) <= x && BranchPrefix(b) <= x
    ensures a == b
  {
    PrefixLetters(a, x);
    PrefixLetters(b, x);
    KeyLetters(a, b);
  }

  /** Below a prefix "agent/<name>/", the text shows the key's first and third letters at 6 and 8. */
  lemma PrefixLetters(a: AgentName, x: string)
    requires BranchPrefix(a) <= x
    ensures x[6] == AsStr(a)[0] && x[8] == AsStr(a)[2]
  {
    var p := BranchPrefix(a);
    assert p[6] == AsStr(a)[0] && p[8] == AsStr(a)[2];
    assert x[..|p|] == p;
    assert x[6] == p[6] && x[8] == p[8];
  }

  /** The position of the last '/' in a path, as `rsplitn(2, '/')` finds it. */
  function LastSlash(s: string): (r: Option<nat>)
    ensures r.Some? ==> r.value < |s| && s[r.value] == '/' && forall j :: r.value < j < |s| ==> s[j] != '/'
    ensures r.None? ==> forall j :: 0 <= j < |s| ==> s[j] != '/'
  {
    if s == [] then None
    else if s[|s| - 1] == '/' then Some(|s| - 1)
    else LastSlash(s[..|s| - 1])
  }

  /** What `worktree_path` keeps of the repository root: everything before its last '/', or all of it
      when it has none. */
  function Parent(path: string): string {
    match LastSlash(path)
    case Some(i) => path[..i]
    case None => path
  }

  /** `worktree_path`: the directory "agent-<name>" beside the repository checkout. */
  function WorktreePath(repoRoot: string, agent: AgentName): string {
    Parent(repoRoot) + "/agent-" + AsStr(agent)
  }

  lemma WorktreePathExample()
    ensures WorktreePath("/Users/pim/fm/workflow/main", Ember) == "/Users/pim/fm/workflow/agent-ember"
  {
    var root := "/Users/pim/fm/workflow/main";
    assert root[22] == '/' && root[23..] == "main";
    assert LastSlash(root) == Some(22);
  }

  /** The worktree is a sibling of the checkout: both have the same parent directory, when the checkout
      path has one. */
  lemma {:induction false} WorktreeIsSibling(repoRoot: string, agent: AgentName)
    requires LastSlash(repoRoot).Some?
    ensures Parent(WorktreePath(repoRoot, agent)) == Parent(repoRoot)
  {
    var p := Parent(repoRoot);
    var r := WorktreePath(repoRoot, agent);
    var tail := "agent-" + AsStr(agent);
    assert r == p + "/" + tail;
    assert forall j :: |p| < j < |r| ==> r[j] == tail[j - |p| - 1];
    assert forall j :: 0 <= j < |tail| ==> tail[j] != '/';
    assert r[|p|] == '/';
    SlashIsLast(r, |p|);
  }

  /** A '/' with no '/' after it is the one `LastSlash` finds. */
  lemma {:induction false} SlashIsLast(s: string, i: nat)
    requires i < |s| && s[i] == '/'
    requires forall j :: i < j < |s| ==> s[j] != '/'
    ensures LastSlash(s) == Some(i)
  {
    if i < |s| - 1 {
      SlashIsLast(s[..|s| - 1], i);
    }
  }

  /** Each agent has its own worktree. */
  lemma WorktreesDifferAcrossAgents(repoRoot: string, a: AgentName, b: AgentName)
    requires a != b
    ensures WorktreePath(repoRoot, a) != WorktreePath(repoRoot, b)
  {
    var p := Parent(repoRoot) + "/agent-";
    assert WorktreePath(repoRoot, a) == p + AsStr(a);
    assert WorktreePath(repoRoot, b) == p + AsStr(b);
    assert (p + AsStr(a))[|p|..] == AsStr(a) && (p + AsStr(b))[|p|..] == AsStr(b);
  }
}
