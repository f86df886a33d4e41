/** `work add`: the argument parser, the order the providers are tried in, and the choice of the final
    error when no provider creates the task. */
module Cli {
  import opened Wrappers
  import opened Text

  const UsageText := "Usage: work add <title> [-d <description>]\n\nExamples:\n  work add \"Fix the login bug\"\n  work add \"Fix the login bug\" -d \"Users can't log in with SSO\""
  const MissingValue := "Missing value for -d/--desc flag"
  const EmptyTitle := "Task title cannot be empty"
  const NoProviders := "No providers configured. Add credentials to ~/.localpipeline/config.toml"
  const NoCreator := "No provider supports task creation. Configure Linear, Trello, or GitHub in ~/.localpipeline/config.toml"

  predicate IsDescFlag(arg: string) {
    arg == "-d" || arg == "--desc" || arg == "--description"
  }

  /** What a run of arguments contributes: its title words in order, and the description it sets last. */
  datatype Scan = Scan(parts: seq<string>, desc: Option<string>)

  /** The reference reading of a run of arguments, from its first argument on: a flag takes the argument
      after it as its value, a description set later replaces one set earlier, and a flag with nothing
      after it is an error. */
  function Scanned(args: seq<string>): Result<Scan>
    decreases |args|
  {
    if args == [] then Ok(Scan([], None))
    else if IsDescFlag(args[0]) then
      if |args| == 1 then Err(MissingValue)
      else
        match Scanned(args[2..])
        case Err(e) => Err(e)
        case Ok(rest) => Ok(Scan(rest.parts, if rest.desc.Some? then rest.desc else Some(args[1])))
    else
      match Scanned(args[1..])
      case Err(e) => Err(e)
      case Ok(rest) => Ok(Scan([args[0]] + rest.parts, rest.desc))
  }

  /** The reading of two runs one after the other, given the reading of the first. */
  function Then(first: Scan, second: Result<Scan>): Result<Scan> {
    match second
    case Err(e) => Err(e)
    case Ok(s) => Ok(Scan(first.parts + s.parts, if s.desc.Some? then s.desc else first.desc))
  }

  /** `parse_add_args`, as a value: the title is the title words joined with single spaces. */
  function AddArgs(args: seq<string>): (r: Result<(string, Option<string>)>)
    ensures r.Err? ==> r.error in {UsageText, MissingValue, EmptyTitle}
    ensures r.Err? && r.error == UsageText <==> args == []
    ensures r.Ok? ==> r.value.0 != []
  {
    if args == [] then Err(UsageText)
    else
      match Scanned(args)
      case Err(_) => Err(MissingValue)
      case Ok(s) =>
        var title := Join(s.parts, " ");
        if title == [] then Err(EmptyTitle) else Ok((title, s.desc))
  }

  /** The only error the scan reports is a flag without a value. */
  lemma {:induction false} ScanFailsOnlyOnMissingValue(args: seq<string>)
    ensures Scanned(args).Err? ==> Scanned(args).error == MissingValue
    decreases |args|
  {
    if args != [] {
      if IsDescFlag(args[0]) {
        if |args| > 1 {
          ScanFailsOnlyOnMissingValue(args[2..]);
        }
      } else {
        ScanFailsOnlyOnMissingValue(args[1..]);
      }
    }
  }

  /** `parse_add_args`: a loop over the arguments collecting the title words and the description. */
  method ParseAddArgs(args: seq<string>) returns (r: Result<(string, Option<string>)>)
    ensures r == AddArgs(args)
  {
    if args == [] {
      return Err(UsageText);
    }
    var titleParts: seq<string> := [];
    var description: Option<string> := None;
    var i := 0;
    ScanFailsOnlyOnMissingValue(args);
    assert args[0..] == args;
    ThenFromNothing(Scanned(args));
    while i < |args|
      invariant 0 <= i <= |args|
      invariant Then(Scan(titleParts, description), Scanned(args[i..])) == Scanned(args)
      decreases |args| - i
    {
      if IsDescFlag(args[i]) {
        if i + 1 == |args| {
          assert args[i..] == [args[i]];
        } else {
          FlagStep(titleParts, description, args, i);
        }
        i := i + 1;
        if i < |args| {
          description := Some(args[i]);
        } else {
          return Err(MissingValue);
        }
      } else {
        WordStep(titleParts, description, args, i);
        titleParts := titleParts + [args[i]];
      }
      i := i + 1;
    }
    assert args[i..] == [] && titleParts + [] == titleParts;
    var title := Join(titleParts, " ");
    if title == [] {
      return Err(EmptyTitle);
    }
    return Ok((title, description));
  }

  /** One title word read by the loop. */
  lemma WordStep(parts: seq<string>, desc: Option<string>, args: seq<string>, i: nat)
    requires i < |args| && !IsDescFlag(args[i])
    ensures Then(Scan(parts, desc), Scanned(args[i..])) == Then(Scan(parts + [args[i]], desc), Scanned(args[i + 1..]))
  {
    assert args[i..][1..] == args[i + 1..];
    var rest := Scanned(args[i + 1..]);
    if rest.Ok? {
      assert (parts + [args[i]]) + rest.value.parts == parts + ([args[i]] + rest.value.parts);
    }
  }

  /** One flag and its value read by the loop. */
  lemma FlagStep(parts: seq<string>, desc: Option<string>, args: seq<string>, i: nat)
    requires i + 1 < |args| && IsDescFlag(args[i])
    ensures Then(Scan(parts, desc), Scanned(args[i..])) == Then(Scan(parts, Some(args[i + 1])), Scanned(args[i + 2..]))
  {
    assert args[i..][2..] == args[i + 2..];
    assert args[i..][1] == args[i + 1];
  }

  /** Reading two runs one after the other is reading the first and then the second, whenever the first
      reads without error: the title words of both are kept in order, and a description in the second
      replaces one in the first. */
  lemma {:induction false} ScanConcat(a: seq<string>, b: seq<string>)
    requires Scanned(a).Ok?
    ensures Scanned(a + b) == Then(Scanned(a).value, Scanned(b))
    decreases |a|
  {
    if a == [] {
      assert a + b == b;
      ThenFromNothing(Scanned(b));
    } else if IsDescFlag(a[0]) {
      assert (a + b)[2..] == a[2..] + b && (a + b)[0] == a[0] && (a + b)[1] == a[1];
      ScanConcat(a[2..], b);
    } else {
      assert (a + b)[1..] == a[1..] + b && (a + b)[0] == a[0];
      ScanConcat(a[1..], b);
      var rest := Scanned(a[1..]).value;
      if Scanned(b).Ok? {
        assert ([a[0]] + rest.parts) + Scanned(b).value.parts == [a[0]] + (rest.parts + Scanned(b).value.parts);
      }
    }
  }

  lemma ThenFromNothing(r: Result<Scan>)
    ensures Then(Scan([], None), r) == r
  {
    if r.Ok? {
      assert [] + r.value.parts == r.value.parts;
    }
  }

  predicate NoFlags(args: seq<string>) {
    forall i :: 0 <= i < |args| ==> !IsDescFlag(args[i])
  }

  /** Without flags every argument is a title word. */
  lemma {:induction false} PlainWords(args: seq<string>)
    requires NoFlags(args)
    ensures Scanned(args) == Ok(Scan(args, None))
    decreases |args|
  {
    if args != [] {
      assert NoFlags(args[1..]) by {
        forall i | 0 <= i < |args[1..]| ensures !IsDescFlag(args[1..][i]) {
          assert args[1..][i] == args[i + 1];
        }
      }
      PlainWords(args[1..]);
      assert [args[0]] + args[1..] == args;
    }
  }

  /** Without flags the title is the arguments joined by single spaces, and there is no description. */
  lemma TitleIsJoinedWords(args: seq<string>)
    requires args != [] && NoFlags(args)
    ensures AddArgs(args) == if Join(args, " ") == [] then Err(EmptyTitle) else Ok((Join(args, " "), None))
  {
    PlainWords(args);
  }

  /** A flag and its value between title words take nothing from the title, and the last flag's value is
      the description. */
  lemma FlagBetweenWords(a: seq<string>, flag: string, v: string, b: seq<string>)
    requires IsDescFlag(flag) && NoFlags(a) && NoFlags(b)
    ensures Scanned(a + [flag, v] + b) == Ok(Scan(a + b, Some(v)))
  {
    PlainWords(a);
    PlainWords(b);
    assert Scanned([flag, v]) == Ok(Scan([], Some(v))) by {
      assert [flag, v][2..] == [];
    }
    ScanConcat(a, [flag, v]);
    assert a + [] == a;
    ScanConcat(a + [flag, v], b);
  }

  /** Of two descriptions, the later one wins. */
  lemma LastDescriptionWins(f1: string, v1: string, f2: string, v2: string)
    requires IsDescFlag(f1) && IsDescFlag(f2)
    ensures Scanned([f1, v1, f2, v2]) == Ok(Scan([], Some(v2)))
  {
    assert [f2, v2][2..] == [];
    assert Scanned([f2, v2]) == Ok(Scan([], Some(v2)));
    assert [f1, v1, f2, v2][2..] == [f2, v2];
  }

  /** A flag as the last argument is an error, whatever comes before it. */
  lemma TrailingFlagFails(a: seq<string>, flag: string)
    requires a != [] && IsDescFlag(flag) && Scanned(a).Ok?
    ensures AddArgs(a + [flag]) == Err(MissingValue)
  {
    ScanConcat(a, [flag]);
  }

  /** The examples of the test suite: plain titles, the three flag spellings, and a flag between words. */
  lemma SingleTitleExample()
    ensures AddArgs(["Fix the login bug"]) == Ok(("Fix the login bug", None))
  {
    TitleIsJoinedWords(["Fix the login bug"]);
  }

  lemma DescriptionFlagExamples()
    ensures AddArgs(["Fix login", "-d", "Users can't log in"]) == Ok(("Fix login", Some("Users can't log in")))
    ensures AddArgs(["Fix login", "--desc", "SSO is broken"]) == Ok(("Fix login", Some("SSO is broken")))
    ensures AddArgs(["Fix login", "--description", "SSO is broken"]) == Ok(("Fix login", Some("SSO is broken")))
  {
    FlagAfterTitle("Fix login", "-d", "Users can't log in");
    FlagAfterTitle("Fix login", "--desc", "SSO is broken");
    FlagAfterTitle("Fix login", "--description", "SSO is broken");
  }

  lemma FlagAfterTitle(title: string, flag: string, v: string)
    requires IsDescFlag(flag) && !IsDescFlag(title) && title != []
    ensures AddArgs([title, flag, v]) == Ok((title, Some(v)))
  {
    FlagBetweenWords([title], flag, v, []);
    assert [title] + [flag, v] + [] == [title, flag, v];
    assert [title] + [] == [title];
  }

  lemma ErrorExamples()
    ensures AddArgs([]).Err?
    ensures AddArgs(["-d", "some description"]) == Err(EmptyTitle)
    ensures AddArgs(["My task", "-d"]) == Err(MissingValue)
  {
    assert ["-d", "some description"][2..] == [];
    TrailingFlagFails(["My task"], "-d");
    assert ["My task"] + ["-d"] == ["My task", "-d"];
  }

  lemma FlagBetweenWordsExample()
    ensures AddArgs(["Fix", "-d", "urgent fix needed", "login", "bug"]) == Ok(("Fix login bug", Some("urgent fix needed")))
  {
    var words := ["Fix", "login", "bug"];
    assert ["Fix", "-d", "urgent fix needed", "login", "bug"] == ["Fix"] + ["-d", "urgent fix needed"] + ["login", "bug"];
    FlagBetweenWords(["Fix"], "-d", "urgent fix needed", ["login", "bug"]);
    assert ["Fix"] + ["login", "bug"] == words;
    assert Join(words, " ") == "Fix login bug" by {
      assert words[1..] == ["login", "bug"];
      assert ["login", "bug"][1..] == ["bug"];
    }
    ScannedTitle(["Fix", "-d", "urgent fix needed", "login", "bug"], Scan(words, Some("urgent fix needed")));
  }

  /** A scan with title words that do not join to nothing gives the joined title and its description. */
  lemma ScannedTitle(args: seq<string>, s: Scan)
    requires args != [] && Scanned(args) == Ok(s) && Join(s.parts, " ") != []
    ensures AddArgs(args) == Ok((Join(s.parts, " "), s.desc))
  {
  }

  /** The indices below `k` whose provider is named `source` (when `wanted`) or is not (otherwise), in
      increasing order. */
  function Grouped(names: seq<string>, source: string, wanted: bool, k: nat): (r: seq<nat>)
    requires k <= |names|
    ensures forall j :: 0 <= j < |r| ==> r[j] < k && (names[r[j]] == source) == wanted
    ensures forall i :: 0 <= i < k && (names[i] == source) == wanted ==> i in r
    ensures forall j, j' :: 0 <= j < j' < |r| ==> r[j] < r[j']
  {
    if k == 0 then []
    else
      var r := Grouped(names, source, wanted, k - 1);
      if (names[k - 1] == source) == wanted then r + [k - 1] else r
  }

  /** The two groups together hold one index per provider. */
  lemma {:induction false} GroupsCover(names: seq<string>, source: string, k: nat)
    requires k <= |names|
    ensures |Grouped(names, source, true, k)| + |Grouped(names, source, false, k)| == k
  {
    if k > 0 {
      GroupsCover(names, source, k - 1);
      var mine, others := Grouped(names, source, true, k - 1), Grouped(names, source, false, k - 1);
      if names[k - 1] == source {
        assert Grouped(names, source, true, k) == mine + [k - 1];
        assert Grouped(names, source, false, k) == others;
      } else {
        assert Grouped(names, source, true, k) == mine;
        assert Grouped(names, source, false, k) == others + [k - 1];
      }
    }
  }

  /** `(0..n).collect()` */
  function Indices(n: nat): (r: seq<nat>)
    ensures |r| == n && forall i :: 0 <= i < n ==> r[i] == i
  {
    seq(n, (i: nat) => i)
  }

  /** The order `handle_add` tries the providers in, as a value. */
  function Order(names: seq<string>, mapped: Option<string>): seq<nat> {
    match mapped
    case None => Indices(|names|)
    case Some(source) => Grouped(names, source, true, |names|) + Grouped(names, source, false, |names|)
  }

  /** The provider order of `handle_add`: with a board mapping for the current directory, the providers
      named like the mapped source, then the others, each in configuration order. */
  method ProviderOrder(names: seq<string>, mapped: Option<string>) returns (order: seq<nat>)
    ensures order == Order(names, mapped)
  {
    if mapped.None? {
      return Indices(|names|);
    }
    var mine := Group(names, mapped.value, true);
    var others := Group(names, mapped.value, false);
    order := mine + others;
  }

  /** One of the two loops of the provider order: the indices of the providers named like `source`
      (when `wanted`) or of the others, in configuration order. */
  method Group(names: seq<string>, source: string, wanted: bool) returns (group: seq<nat>)
    ensures group == Grouped(names, source, wanted, |names|)
  {
    group := [];
    for i: nat := 0 to |names|
      invariant group == Grouped(names, source, wanted, i)
    {
      if (names[i] == source) == wanted {
        group := group + [i];
      }
    }
  }

  /** Every provider is tried exactly once: the order is a permutation of the provider indices. */
  lemma OrderIsPermutation(names: seq<string>, mapped: Option<string>)
    ensures var order := Order(names, mapped);
            && |order| == |names|
            && (forall j :: 0 <= j < |order| ==> order[j] < |names|)
            && (forall i :: 0 <= i < |names| ==> i in order)
            && (forall j, j' :: 0 <= j < j' < |order| ==> order[j] != order[j'])
  {
    if mapped.None? {
      var order := Indices(|names|);
      forall i | 0 <= i < |names| ensures i in order {
        assert order[i] == i;
      }
    } else {
      GroupsCover(names, mapped.value, |names|);
      GroupsHoldAll(names, mapped.value);
      GroupsDistinct(names, mapped.value);
    }
  }

  lemma GroupsHoldAll(names: seq<string>, source: string)
    ensures forall i :: 0 <= i < |names| ==> i in Order(names, Some(source))
  {
    var mine, others := Grouped(names, source, true, |names|), Grouped(names, source, false, |names|);
    forall i | 0 <= i < |names| ensures i in mine + others {
      if names[i] == source {
        assert i in mine;
      } else {
        assert i in others;
      }
    }
  }

  lemma GroupsDistinct(names: seq<string>, source: string)
    ensures var order := Order(names, Some(source));
            forall j, j' :: 0 <= j < j' < |order| ==> order[j] != order[j']
  {
    MappedProvidersFirst(names, source);
    var order := Order(names, Some(source));
    forall j, j' | 0 <= j < j' < |order| ensures order[j] != order[j'] {
      if (names[order[j]] == source) == (names[order[j']] == source) {
        assert order[j] < order[j'];
      }
    }
  }

  /** The mapped providers come first and each group keeps configuration order. */
  lemma MappedProvidersFirst(names: seq<string>, source: string)
    ensures var order := Order(names, Some(source));
            forall j, j' :: 0 <= j < j' < |order| ==>
              (names[order[j']] == source ==> names[order[j]] == source) &&
              ((names[order[j]] == source) == (names[order[j']] == source) ==> order[j] < order[j'])
  {
    var mine, others := Grouped(names, source, true, |names|), Grouped(names, source, false, |names|);
    var order := mine + others;
    forall j, j' | 0 <= j < j' < |order|
      ensures names[order[j']] == source ==> names[order[j]] == source
      ensures (names[order[j]] == source) == (names[order[j']] == source) ==> order[j] < order[j']
    {
      if j' < |mine| {
        assert order[j] == mine[j] && order[j'] == mine[j'];
      } else if j >= |mine| {
        assert order[j] == others[j - |mine|] && order[j'] == others[j' - |mine|];
      } else {
        assert order[j] == mine[j] && order[j'] == others[j' - |mine|];
      }
    }
  }

  /** What a provider's `create_item` gave: the task, no support for creating tasks, or an error. */
  datatype Attempt = Made | Unsupported | Failed(error: string)

  /** The outcome of trying the providers in `order`, the last error seen so far being `last`. */
  function Tried(order: seq<nat>, names: seq<string>, attempt: nat -> Attempt, last: Option<string>): Result<nat>
    requires forall j :: 0 <= j < |order| ==> order[j] < |names|
  {
    if order == [] then
      if last.Some? then Err("Failed to create task: " + last.value) else Err(NoCreator)
    else
      match attempt(order[0])
      case Made => Ok(order[0])
      case Unsupported => Tried(order[1..], names, attempt, last)
      case Failed(e) => Tried(order[1..], names, attempt, Some(names[order[0]] + ": " + e))
  }

  /** The error of the last provider in `order` that failed, read from the end. */
  function LastFailure(order: seq<nat>, names: seq<string>, attempt: nat -> Attempt): Option<string>
    requires forall j :: 0 <= j < |order| ==> order[j] < |names|
  {
    if order == [] then None
    else
      var k := order[|order| - 1];
      if attempt(k).Failed? then Some(names[k] + ": " + attempt(k).error)
      else LastFailure(order[..|order| - 1], names, attempt)
  }

  predicate NoneMade(order: seq<nat>, attempt: nat -> Attempt) {
    forall j :: 0 <= j < |order| ==> !attempt(order[j]).Made?
  }

  /** The first provider in the order that creates the task is the one used. */
  lemma {:induction false} FirstCreatorWins(order: seq<nat>, names: seq<string>, attempt: nat -> Attempt,
                                            last: Option<string>, k: nat)
    requires forall j :: 0 <= j < |order| ==> order[j] < |names|
    requires k < |order| && attempt(order[k]).Made? && NoneMade(order[..k], attempt)
    ensures Tried(order, names, attempt, last) == Ok(order[k])
    decreases k
  {
    if k > 0 {
      assert !attempt(order[..k][0]).Made?;
      var rest := order[1..];
      assert NoneMade(rest[..k - 1], attempt) by {
        assert rest[..k - 1] == order[..k][1..];
        forall j | 0 <= j < k - 1 ensures !attempt(order[..k][1..][j]).Made? {
          assert order[..k][1..][j] == order[..k][j + 1];
        }
      }
      var next := if attempt(order[0]).Failed? then Some(names[order[0]] + ": " + attempt(order[0]).error) else last;
      FirstCreatorWins(order[1..], names, attempt, next, k - 1);
    }
  }

  /** When no provider creates the task, the error names the last provider that failed, or says that no
      provider can create tasks when none failed. */
  lemma {:induction false} LastErrorReported(order: seq<nat>, names: seq<string>, attempt: nat -> Attempt,
                                             last: Option<string>)
    requires forall j :: 0 <= j < |order| ==> order[j] < |names|
    requires NoneMade(order, attempt)
    ensures var failure := if LastFailure(order, names, attempt).Some? then LastFailure(order, names, attempt) else last;
            Tried(order, names, attempt, last) ==
              if failure.Some? then Err("Failed to create task: " + failure.value) else Err(NoCreator)
    decreases |order|
  {
    if order != [] {
      var rest := order[1..];
      var next := if attempt(order[0]).Failed? then Some(names[order[0]] + ": " + attempt(order[0]).error) else last;
      assert NoneMade(rest, attempt) by {
        forall j | 0 <= j < |rest| ensures !attempt(rest[j]).Made? {
          assert rest[j] == order[j + 1];
        }
      }
      LastErrorReported(rest, names, attempt, next);
      LastFailureOfTail(order, names, attempt);
    }
  }

  /** The last failure of an order is that of its tail, or its head's when the tail has none. */
  lemma {:induction false} LastFailureOfTail(order: seq<nat>, names: seq<string>, attempt: nat -> Attempt)
    requires order != [] && forall j :: 0 <= j < |order| ==> order[j] < |names|
    ensures var head := order[0];
            LastFailure(order, names, attempt) ==
              if LastFailure(order[1..], names, attempt).Some? then LastFailure(order[1..], names, attempt)
              else if attempt(head).Failed? then Some(names[head] + ": " + attempt(head).error)
              else None
    decreases |order|
  {
    if |order| > 1 {
      var init := order[..|order| - 1];
      assert init[1..] == order[1..][..|order[1..]| - 1];
      assert init[0] == order[0];
      LastFailureOfTail(init, names, attempt);
    }
  }

  /** `handle_add` from its arguments to its outcome, as a value: `names` are the configured providers in
      factory order, `mapped` the source the current directory is mapped to, and `attempt` what each
      provider's `create_item` gives for the parsed title and description. The outcome is the index of
      the provider that created the task. */
  function AddOutcome(args: seq<string>, names: seq<string>, mapped: Option<string>,
                      attempt: (nat, string, Option<string>) -> Attempt): Result<nat>
  {
    match AddArgs(args)
    case Err(e) => Err(e)
    case Ok((title, desc)) =>
      if names == [] then Err(NoProviders)
      else
        OrderIsPermutation(names, mapped);
        Tried(Order(names, mapped), names, (i: nat) => attempt(i, title, desc), None)
  }

  /** `handle_add`: the arguments are parsed first, then the providers tried in order until one creates
      the task. Printing the created task is not modelled. */
  method HandleAdd(args: seq<string>, names: seq<string>, mapped: Option<string>,
                   attempt: (nat, string, Option<string>) -> Attempt) returns (r: Result<nat>)
    ensures r == AddOutcome(args, names, mapped, attempt)
  {
    var parsed := ParseAddArgs(args);
    if parsed.Err? {
      return Err(parsed.error);
    }
    var (title, desc) := parsed.value;
    if names == [] {
      return Err(NoProviders);
    }
    var order := ProviderOrder(names, mapped);
    OrderIsPermutation(names, mapped);
    r := TryProviders(order, names, (i: nat) => attempt(i, title, desc));
  }

  /** The loop of `handle_add` over the providers in order: the first one that creates the task wins, and
      when none does the last error is reported. */
  method TryProviders(order: seq<nat>, names: seq<string>, attempt: nat -> Attempt) returns (r: Result<nat>)
    requires forall j :: 0 <= j < |order| ==> order[j] < |names|
    ensures r == Tried(order, names, attempt, None)
  {
    var lastError: Option<string> := None;
    var k := 0;
    while k < |order|
      invariant 0 <= k <= |order|
      invariant Tried(order[k..], names, attempt, lastError) == Tried(order, names, attempt, None)
      decreases |order| - k
    {
      var idx := order[k];
      ghost var here := order[k..];
      assert here[1..] == order[k + 1..];
      match attempt(idx) {
        case Made =>
          return Ok(idx);
        case Unsupported =>
        case Failed(e) =>
          lastError := Some(names[idx] + ": " + e);
      }
      k := k + 1;
    }
    if lastError.Some? {
      return Err("Failed to create task: " + lastError.value);
    }
    return Err(NoCreator);
  }
}
