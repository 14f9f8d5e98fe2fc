/** The path lists of `scripts/init_template.py`. */
module InstallerPaths {
  import opened Strings
  import opened TemplateInstaller

  const SUPPORT_ASSETS: seq<Path> := [
    "scripts/init_template.py",
    "scripts/check_state_docs.py",
    "prompts/CTO_SESSION_PROMPT.md",
    "prompts/CODING_AGENT_STARTUP_PROMPT.md",
    "prompts/BOOTSTRAP_INTAKE_PROMPT.md",
    "prompts/FINAL_HANDOFF_TEMPLATE.md",
    "prompts/RUNTIME_IDENTITY_CHECKLIST.md",
    "prompts/ACCEPTANCE_FREEZE_TEMPLATE.md",
    "docs/BOOTSTRAP_QUALITY.md"]

  const GITHUB_ASSETS: seq<Path> := [
    ".github/workflows/validate.yml",
    ".github/pull_request_template.md",
    ".github/ISSUE_TEMPLATE/config.yml",
    ".github/ISSUE_TEMPLATE/bootstrap-init.md",
    ".github/ISSUE_TEMPLATE/bug-regression.md",
    ".github/ISSUE_TEMPLATE/backlog-item.md",
    ".github/ISSUE_TEMPLATE/architecture-change.md"]

  const PROTECTED: seq<Path> := [
    "AGENTS.md", "STATUS.md", "PROJECT_STATE.yaml", "PROJECT_DNA.yaml", "PROJECT_ADAPTER.yaml",
    "NEXT_ACTIONS.md", "BACKLOG.md", "WORKLOG.md", "docs/EVIDENCE_LOG.md"]

  const UNPROTECTED: seq<Path> := ["docs/ACCEPTANCE_FREEZES.md", "docs/evidence/.gitkeep"]

  function ScriptLayout(githubAssets: bool): Layout {
    Layout(if githubAssets then SUPPORT_ASSETS + GITHUB_ASSETS else SUPPORT_ASSETS, PROTECTED, UNPROTECTED)
  }

  /** A property of every asset path that no managed path has. */
  predicate AssetShaped(p: Path) {
    |p| > 5 && (p[0] == 's' || p[0] == 'p' || p[0] == '.' || (p[0] == 'd' && p[5] == 'B'))
  }

  predicate UnprotectedShaped(p: Path) {
    |p| > 5 && p[0] == 'd' && p[5] != 'E'
  }

  predicate GithubShaped(p: Path) {
    p != [] && p[0] == '.'
  }

  lemma SupportShapes()
    ensures forall p :: p in SUPPORT_ASSETS ==> AssetShaped(p)
  {
  }

  lemma GithubShapes()
    ensures forall p :: p in GITHUB_ASSETS ==> AssetShaped(p)
  {
    assert AssetShaped(GITHUB_ASSETS[0]);
    assert AssetShaped(GITHUB_ASSETS[1]);
    assert AssetShaped(GITHUB_ASSETS[2]);
    assert AssetShaped(GITHUB_ASSETS[3]);
    assert AssetShaped(GITHUB_ASSETS[4]);
    assert AssetShaped(GITHUB_ASSETS[5]);
    assert AssetShaped(GITHUB_ASSETS[6]);
  }

  lemma OnlyGithubHasDots()
    ensures forall p :: p in SUPPORT_ASSETS ==> !GithubShaped(p)
    ensures forall p :: p in GITHUB_ASSETS ==> GithubShaped(p)
  {
    assert GithubShaped(GITHUB_ASSETS[0]) && GithubShaped(GITHUB_ASSETS[1]) && GithubShaped(GITHUB_ASSETS[2]);
    assert GithubShaped(GITHUB_ASSETS[3]) && GithubShaped(GITHUB_ASSETS[4]) && GithubShaped(GITHUB_ASSETS[5]);
    assert GithubShaped(GITHUB_ASSETS[6]);
  }

  lemma ManagedShapes()
    ensures forall p :: p in PROTECTED ==> !AssetShaped(p) && !UnprotectedShaped(p) && p != README
    ensures forall p :: p in UNPROTECTED ==> !AssetShaped(p) && UnprotectedShaped(p) && p != README
  {
    assert README[0] == 'R';
  }

  /** Support assets, GitHub assets, managed files and the README never share a path. */
  lemma NoPathTwice(githubAssets: bool)
    ensures Disjoint(ScriptLayout(githubAssets))
    ensures forall p :: p in SUPPORT_ASSETS ==> p !in GITHUB_ASSETS
  {
    SupportShapes();
    GithubShapes();
    ManagedShapes();
    OnlyGithubHasDots();
    assert AssetShaped(README) == false by { assert README[0] == 'R'; }
  }

  /** The guarantees of `adopt` with the script's own lists, with or without the GitHub assets:
      the dry run is exact about refusing, and an unforced run spares every file but the README
      and the two managed paths that the protected list leaves out. */
  lemma ScriptAdopt(githubAssets: bool, files: Files, flags: Flags, src: Sources, p: Path)
    ensures var l := ScriptLayout(githubAssets);
            var dry := Adopt(l, files, flags.(dryRun := true), src);
            var live := Adopt(l, files, flags.(dryRun := false), src);
      && dry.files == files && dry.refusal == live.refusal
      && (p in files && !flags.force ==>
            && p in live.files
            && (live.files[p] == files[p]
                || (p == README && flags.readmeLink)
                || (p in ["docs/ACCEPTANCE_FREEZES.md", "docs/evidence/.gitkeep"] && flags.overwrite)))
  {
    var l := ScriptLayout(githubAssets);
    NoPathTwice(githubAssets);
    DryRunPredictsRefusal(l, files, flags, src);
    if p in files && !flags.force { AdoptKeepsFiles(l, files, flags.(dryRun := false), src, p); }
  }

  const NO_FLAGS := Flags(false, false, false, false, false)

  /** An adopt that refuses and yet writes: in a repository that has an AGENTS.md and nothing else,
      all support assets are copied before the refusal. */
  lemma HalfDoneAdopt(src: Sources, text: string)
    ensures var files := map["AGENTS.md" := text];
            var r := Adopt(ScriptLayout(false), files, NO_FLAGS, src);
      && r.refusal.Some? && r.files != files && "scripts/check_state_docs.py" in r.files
  {
    var l, files: Files := ScriptLayout(false), map["AGENTS.md" := text];
    NoPathTwice(false);
    AgentsFileOnly(text);
    AdoptOutcome(l, files, NO_FLAGS, src);
    WriteAllMeaning(files, l.assets, src.asset);
    assert SUPPORT_ASSETS[1] in l.assets;
    assert "scripts/check_state_docs.py" !in files;
  }

  lemma AgentsFileOnly(text: string)
    ensures var l, files := ScriptLayout(false), map["AGENTS.md" := text];
      !AssetInTheWay(l, files, NO_FLAGS) && ManagedInTheWay(l, files, NO_FLAGS)
  {
    var l, files: Files := ScriptLayout(false), map["AGENTS.md" := text];
    NoPathTwice(false);
    assert l.Managed()[0] == "AGENTS.md";
    assert ManagedConflict(l, "AGENTS.md", files, false, false);
  }

  /** An unforced `new --overwrite --minimal` that replaces one file of the user's and deletes
      another: the template ships neither. */
  lemma UnforcedNewLosesFiles(shipped: Files, src: Sources, text: string)
    requires "AGENTS.md" !in shipped && "fixtures/a" !in shipped
    ensures var files := map["AGENTS.md" := text, "fixtures/a" := text];
            var r := New(ScriptLayout(false), files, shipped, Elsewhere, Flags(true, false, false, false, true), src);
      && r.refusal == None
      && "AGENTS.md" in r.files && r.files["AGENTS.md"] == src.rendered("AGENTS.md")
      && "fixtures/a" !in r.files
  {
    var l, flags := ScriptLayout(false), Flags(true, false, false, false, true);
    var files: Files := map["AGENTS.md" := text, "fixtures/a" := text];
    NewRefuses(l, files, shipped, Elsewhere, flags, src);
    NewUnforcedOutcome(l, files, shipped, flags, src, "AGENTS.md");
    NewUnforcedOutcome(l, files, shipped, flags, src, "fixtures/a");
    assert l.Managed()[0] == "AGENTS.md";
    assert !Cleaned("AGENTS.md") by { assert "AGENTS.md"[0] != FIXTURES[0] && |"AGENTS.md"| != |QUALITY_DOC|; }
    assert FIXTURES <= "fixtures/a";
  }

  /** `main` with the script's own lists. */
  method RunScript(
    target: Target, adopt: bool, githubAssets: bool, shipped: Files, place: Place, flags: Flags, src: Sources)
    returns (refusal: Option<Refusal>)
    requires target.report == []
    modifies target
    ensures var l := ScriptLayout(githubAssets);
            var r := if adopt then Adopt(l, old(target.files), flags, src)
                     else New(l, old(target.files), shipped, place, flags, src);
      target.files == r.files && refusal == r.refusal
  {
    var l := ScriptLayout(githubAssets);
    if adopt {
      refusal := target.RunAdopt(l, flags, src);
    } else {
      refusal := target.RunNew(l, shipped, place, flags, src);
    }
  }
}
