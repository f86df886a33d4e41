/** The examples of the naming unit tests, evaluated piece by piece: each piece of a title is slugged on
    its own and the pieces are joined with `SluggedAppend`. */
module BranchExamples {
  import opened Agents
  import opened Text
  import opened Branch

  lemma SlugAdd()       ensures Slugged("Add") == "add" {}
  lemma SlugLo()        ensures Slugged(" lo") == "-lo" {}
  lemma SlugGin()       ensures Slugged("gin") == "gin" {}
  lemma SlugVa()        ensures Slugged(" va") == "-va" {}
  lemma SlugLid()       ensures Slugged("lid") == "lid" {}
  lemma SlugAt()        ensures Slugged("at") == "at" {}
  lemma SlugIon()       ensures Slugged("ion") == "ion" {}
  lemma SlugFix()       ensures Slugged("Fix") == "fix" {}
  lemma SlugBug()       ensures Slugged(" bug") == "-bug" {}
  lemma SlugHash()      ensures Slugged(" #") == "--" {}
  lemma Slug42()        ensures Slugged("42!") == "42-" {}

  lemma SlugLogin()
    ensures Slugged(" login") == "-login"
  {
    SlugLo();
    SlugGin();
    assert " lo" + "gin" == " login" && "-lo" + "gin" == "-login";
    SluggedAppend(" lo", "gin");
  }

  lemma SlugValid()
    ensures Slugged(" valid") == "-valid"
  {
    SlugVa();
    SlugLid();
    assert " va" + "lid" == " valid" && "-va" + "lid" == "-valid";
    SluggedAppend(" va", "lid");
  }

  lemma SlugAtion()
    ensures Slugged("ation") == "ation"
  {
    SlugAt();
    SlugIon();
    assert "at" + "ion" == "ation";
    SluggedAppend("at", "ion");
  }

  lemma SlugNumber()
    ensures Slugged(" #42!") == "--42-"
  {
    SlugHash();
    Slug42();
    assert " #" + "42!" == " #42!" && "--" + "42-" == "--42-";
    SluggedAppend(" #", "42!");
  }

  lemma JoinAddLogin()
    ensures "Add" + " login" == "Add login" && "add" + "-login" == "add-login"
  {}

  lemma JoinValidation()
    ensures " valid" + "ation" == " validation" && "-valid" + "ation" == "-validation"
  {}

  lemma JoinAddLoginValidation()
    ensures "Add login" + " validation" == "Add login validation"
    ensures "add-login" + "-validation" == "add-login-validation"
  {}

  lemma JoinFixBug()
    ensures "Fix" + " bug" == "Fix bug" && "fix" + "-bug" == "fix-bug"
  {}

  lemma JoinFixBugNumber()
    ensures "Fix bug" + " #42!" == "Fix bug #42!" && "fix-bug" + "--42-" == "fix-bug--42-"
  {}

  lemma SlugAddLogin()
    ensures Slugged("Add login") == "add-login"
  {
    SlugAdd();
    SlugLogin();
    JoinAddLogin();
    SluggedAppend("Add", " login");
  }

  lemma SlugValidation()
    ensures Slugged(" validation") == "-validation"
  {
    SlugValid();
    SlugAtion();
    JoinValidation();
    SluggedAppend(" valid", "ation");
  }

  lemma SlugAddLoginValidation()
    ensures Slugged("Add login validation") == "add-login-validation"
  {
    SlugAddLogin();
    SlugValidation();
    JoinAddLoginValidation();
    SluggedAppend("Add login", " validation");
  }

  lemma SlugFixBugNumber()
    ensures Slugged("Fix bug #42!") == "fix-bug--42-"
  {
    SlugFix();
    SlugBug();
    JoinFixBug();
    SluggedAppend("Fix", " bug");
    SlugNumber();
    JoinFixBugNumber();
    SluggedAppend("Fix bug", " #42!");
  }

  /** `slugify("Add login validation")`: words joined by dashes. */
  lemma SlugifyLoginExample()
    ensures Slugify("Add login validation") == "add-login-validation"
  {
    SlugAddLoginValidation();
  }

  /** `slugify("Fix bug #42!")`: punctuation becomes dashes, inner runs stay, the trailing one goes. */
  lemma SlugifyPunctuationExample()
    ensures Slugify("Fix bug #42!") == "fix-bug--42"
  {
    SlugFixBugNumber();
    TrimFixBugNumber();
  }

  lemma TrimFixBugNumber()
    ensures TrimDashes("fix-bug--42-") == "fix-bug--42"
  {
    assert TrimLeadingDashes("fix-bug--42-") == "fix-bug--42-";
    assert "fix-bug--42-"[..11] == "fix-bug--42";
    assert TrimTrailingDashes("fix-bug--42") == "fix-bug--42";
  }

  /** `branch_name(Ember, "LIN-42", "Add login")` */
  lemma BranchNameExample()
    ensures BranchName(Ember, "LIN-42", "Add login") == "agent/ember/LIN-42-add-login"
  {
    SlugifyAddLogin();
    JoinBranchName();
  }

  lemma SlugifyAddLogin()
    ensures Slugify("Add login") == "add-login"
  {
    SlugAddLogin();
  }

  lemma JoinBranchName()
    ensures ("agent/" + "ember" + "/") + ("LIN-42" + "-" + "add-login") == "agent/ember/LIN-42-add-login"
  {}
}
