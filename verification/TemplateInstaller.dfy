/** `scripts/init_template.py`: copying assets and managed files into a target tree. */
module TemplateInstaller {
  import opened Strings
  import opened PythonText

  type Path = string

  /** A tree: the path of every file, relative to its root, with its content. */
  type Files = map<Path, string>

  /** Where the target of `new` lies relative to the template checkout. */
  datatype Place = Same | Nested | Elsewhere

  datatype Flags = Flags(overwrite: bool, force: bool, dryRun: bool, readmeLink: bool, minimal: bool)

  datatype Refusal =
    | ForceNeedsOverwrite
    | AssetsExist(paths: seq<Path>)
    | ManagedExist(paths: seq<Path>)
    | NestedTarget
    | TargetNotEmpty
    | TemplateCollision(collisions: set<Path>)

  /** A line of the dry-run report. */
  datatype Action = Create(p: Path) | Overwrite(p: Path) | Write(p: Path) | AppendReadme | Clean

  /** What a phase or a whole run leaves behind. */
  datatype Result = Result(files: Files, refusal: Option<Refusal>, plan: seq<Action>)

  /** The texts that the run writes: asset contents, rendered managed files, the README section. */
  datatype Sources = Sources(asset: Path -> string, rendered: Path -> string, section: string)

  const README: Path := "README.md"
  const QUALITY_DOC: Path := "docs/BOOTSTRAP_QUALITY.md"
  const FIXTURES := "fixtures/"

  /** The paths that a run of `adopt` deals with: the assets it copies, and the managed files it
      renders, those that its second check protects and the others. */
  datatype Layout = Layout(assets: seq<Path>, protected: seq<Path>, unprotected: seq<Path>) {
    function Managed(): seq<Path> { protected + unprotected }
  }

  /** No path plays two parts. The script's own lists satisfy this: InstallerPaths.NoPathTwice. */
  ghost predicate Disjoint(l: Layout) {
    && (forall p :: p in l.assets ==> p !in l.Managed() && p != README)
    && README !in l.Managed()
    && (forall p :: p in l.unprotected ==> p !in l.protected)
    && l.assets != []
  }

  // ---- the phases of a run, as functions of the tree ------------------------------------

  function Existing(paths: seq<Path>, files: Files): seq<Path> {
    if paths == [] then []
    else
      var n := |paths| - 1;
      Existing(paths[..n], files) + (if paths[n] in files then [paths[n]] else [])
  }

  function AssetPlan(paths: seq<Path>, files: Files, force: bool): seq<Action> {
    if paths == [] then []
    else
      var n := |paths| - 1;
      var p := paths[n];
      AssetPlan(paths[..n], files, force)
      + (if p !in files then [Create(p)] else if force then [Overwrite(p)] else [])
  }

  function WritePlan(paths: seq<Path>): seq<Action> {
    seq(|paths|, i requires 0 <= i < |paths| => Write(paths[i]))
  }

  function WriteAll(files: Files, paths: seq<Path>, content: Path -> string): Files {
    if paths == [] then files
    else
      var n := |paths| - 1;
      WriteAll(files, paths[..n], content)[paths[n] := content(paths[n])]
  }

  function CopyPhase(files: Files, paths: seq<Path>, flags: Flags, asset: Path -> string): Result {
    var forced := flags.overwrite && flags.force;
    if !forced && Existing(paths, files) != [] then
      Result(files, Some(AssetsExist(Existing(paths, files))), [])
    else if flags.dryRun then Result(files, None, AssetPlan(paths, files, forced))
    else Result(WriteAll(files, paths, asset), None, [])
  }

  predicate ManagedConflict(l: Layout, p: Path, files: Files, overwrite: bool, force: bool) {
    p in files && (!overwrite || (!force && p in l.protected))
  }

  function ManagedConflicts(l: Layout, paths: seq<Path>, files: Files, overwrite: bool, force: bool): seq<Path> {
    if paths == [] then []
    else
      var n := |paths| - 1;
      ManagedConflicts(l, paths[..n], files, overwrite, force)
      + (if ManagedConflict(l, paths[n], files, overwrite, force) then [paths[n]] else [])
  }

  function ManagedPhase(
    l: Layout, files: Files, overwrite: bool, force: bool, dryRun: bool, rendered: Path -> string): Result
  {
    var conflicts := ManagedConflicts(l, l.Managed(), files, overwrite, force);
    if conflicts != [] then Result(files, Some(ManagedExist(conflicts)), [])
    else if dryRun then Result(files, None, WritePlan(l.Managed()))
    else Result(WriteAll(files, l.Managed(), rendered), None, [])
  }

  /** The README text after the append, or as it was when it already has the section. */
  function AppendSection(raw: string, section: string): string {
    var text := ReadText(raw);
    if Includes(text, section) then raw else RStrip(text) + "\n\n" + section + "\n"
  }

  function ReadmePhase(files: Files, dryRun: bool, section: string): Result {
    if README !in files || Includes(ReadText(files[README]), section) then Result(files, None, [])
    else if dryRun then Result(files, None, [AppendReadme])
    else Result(files[README := AppendSection(files[README], section)], None, [])
  }

  function Then(before: Result, after: Result): Result {
    Result(after.files, after.refusal, before.plan + after.plan)
  }

  /** `adopt` on an existing target directory. */
  function Adopt(l: Layout, files: Files, flags: Flags, src: Sources): Result {
    if flags.force && !flags.overwrite then Result(files, Some(ForceNeedsOverwrite), [])
    else
      var copied := CopyPhase(files, l.assets, flags, src.asset);
      if copied.refusal.Some? then copied
      else
        var managed := Then(copied,
          ManagedPhase(l, copied.files, flags.overwrite, flags.force, flags.dryRun, src.rendered));
        if managed.refusal.Some? || !flags.readmeLink then managed
        else Then(managed, ReadmePhase(managed.files, flags.dryRun, src.section))
  }

  // ---- writing lists of files -----------------------------------------------------------

  lemma {:induction false} WriteAllMeaning(files: Files, paths: seq<Path>, content: Path -> string)
    ensures var r := WriteAll(files, paths, content);
      && (forall p :: p in r <==> p in files || p in paths)
      && (forall p :: p in paths ==> p in r && r[p] == content(p))
      && (forall p :: p in files && p !in paths ==> p in r && r[p] == files[p])
  {
    if paths != [] {
      var n := |paths| - 1;
      WriteAllMeaning(files, paths[..n], content);
      assert forall p :: p in paths <==> p in paths[..n] || p == paths[n];
    }
  }

  lemma {:induction false} ExistingMeaning(paths: seq<Path>, files: Files)
    ensures forall p :: p in Existing(paths, files) <==> p in paths && p in files
  {
    if paths != [] {
      var n := |paths| - 1;
      ExistingMeaning(paths[..n], files);
      assert forall p :: p in paths <==> p in paths[..n] || p == paths[n];
    }
  }

  lemma {:induction false} ConflictsMeaning(l: Layout, paths: seq<Path>, files: Files, overwrite: bool, force: bool)
    ensures forall p :: p in ManagedConflicts(l, paths, files, overwrite, force) <==>
                        p in paths && ManagedConflict(l, p, files, overwrite, force)
  {
    if paths != [] {
      var n := |paths| - 1;
      ConflictsMeaning(l, paths[..n], files, overwrite, force);
      assert forall p :: p in paths <==> p in paths[..n] || p == paths[n];
    }
  }

  /** Conflicts only look at which of the paths exist. */
  lemma {:induction false} ConflictsAgree(
    l: Layout, paths: seq<Path>, files: Files, other: Files, overwrite: bool, force: bool)
    requires forall p :: p in paths ==> (p in files <==> p in other)
    ensures ManagedConflicts(l, paths, files, overwrite, force) == ManagedConflicts(l, paths, other, overwrite, force)
  {
    if paths != [] {
      var n := |paths| - 1;
      assert paths[n] in paths;
      assert forall p :: p in paths[..n] ==> p in paths;
      ConflictsAgree(l, paths[..n], files, other, overwrite, force);
    }
  }

  lemma {:induction false} AssetPlanMeaning(paths: seq<Path>, files: Files, force: bool)
    requires force || forall p :: p in paths ==> p !in files
    ensures forall p :: Create(p) in AssetPlan(paths, files, force) <==> p in paths && p !in files
    ensures forall p :: Overwrite(p) in AssetPlan(paths, files, force) <==> p in paths && p in files
    ensures forall a :: a in AssetPlan(paths, files, force) ==> a.Create? || a.Overwrite?
  {
    if paths != [] {
      var n := |paths| - 1;
      assert forall p :: p in paths <==> p in paths[..n] || p == paths[n];
      AssetPlanMeaning(paths[..n], files, force);
    }
  }

  // ---- what adopt keeps -----------------------------------------------------------------

  /** Why a run of `adopt` refuses, read off the original tree alone: a forced run never does. */
  ghost predicate AssetInTheWay(l: Layout, files: Files, flags: Flags) {
    !(flags.overwrite && flags.force) && exists p :: p in l.assets && p in files
  }

  /** A managed file is there and nothing may be overwritten, or a protected one and it is not forced. */
  ghost predicate ManagedInTheWay(l: Layout, files: Files, flags: Flags) {
    || (!flags.overwrite && exists p :: p in l.Managed() && p in files)
    || (flags.overwrite && !flags.force && exists p :: p in l.protected && p in files)
  }

  lemma ConflictMeansInTheWay(l: Layout, files: Files, flags: Flags)
    ensures ManagedConflicts(l, l.Managed(), files, flags.overwrite, flags.force) != [] <==>
              ManagedInTheWay(l, files, flags)
  {
    var c := ManagedConflicts(l, l.Managed(), files, flags.overwrite, flags.force);
    ConflictsMeaning(l, l.Managed(), files, flags.overwrite, flags.force);
    assert c != [] ==> c[0] in c;
    forall p | p in l.protected ensures p in l.Managed() {}
  }

  /** The paths that the refusals name, in the order of the lists: the assets that are there, and the
      managed files that are there and may not be replaced. */
  lemma RefusalNames(l: Layout, files: Files, flags: Flags, src: Sources, p: Path)
    requires Disjoint(l)
    ensures var refusal := Adopt(l, files, flags, src).refusal;
      && (refusal.Some? && refusal.value.AssetsExist? ==>
            (p in refusal.value.paths <==> p in l.assets && p in files))
      && (refusal.Some? && refusal.value.ManagedExist? ==>
            (p in refusal.value.paths <==>
              p in l.Managed() && p in files && (!flags.overwrite || (!flags.force && p in l.protected))))
  {
    CopyKeepsManaged(l, files, flags, src);
    ExistingMeaning(l.assets, files);
    ConflictsMeaning(l, l.Managed(), files, flags.overwrite, flags.force);
  }

  lemma {:induction false} ExistingInOrder(a: seq<Path>, b: seq<Path>, files: Files)
    ensures Existing(a + b, files) == Existing(a, files) + Existing(b, files)
  {
    if b == [] {
      assert a + b == a;
    } else {
      var n := |b| - 1;
      ExistingInOrder(a, b[..n], files);
      assert (a + b)[..|a + b| - 1] == a + b[..n];
    }
  }

  lemma {:induction false} ConflictsInOrder(l: Layout, a: seq<Path>, b: seq<Path>, files: Files, flags: Flags)
    ensures ManagedConflicts(l, a + b, files, flags.overwrite, flags.force)
         == ManagedConflicts(l, a, files, flags.overwrite, flags.force)
            + ManagedConflicts(l, b, files, flags.overwrite, flags.force)
  {
    if b == [] {
      assert a + b == a;
    } else {
      var n := |b| - 1;
      ConflictsInOrder(l, a, b[..n], files, flags);
      assert (a + b)[..|a + b| - 1] == a + b[..n];
    }
  }

  lemma WritePlanInOrder(a: seq<Path>, b: seq<Path>)
    ensures WritePlan(a + b) == WritePlan(a) + WritePlan(b)
  {
  }

  lemma {:induction false} AssetPlanInOrder(a: seq<Path>, b: seq<Path>, files: Files, force: bool)
    ensures AssetPlan(a + b, files, force) == AssetPlan(a, files, force) + AssetPlan(b, files, force)
  {
    if b == [] {
      assert a + b == a;
    } else {
      var n := |b| - 1;
      AssetPlanInOrder(a, b[..n], files, force);
      assert (a + b)[..|a + b| - 1] == a + b[..n];
    }
  }

  /** The tree that the managed-file phase finds has the same managed files as the original. */
  lemma CopyKeepsManaged(l: Layout, files: Files, flags: Flags, src: Sources)
    requires Disjoint(l)
    ensures var copied := CopyPhase(files, l.assets, flags, src.asset);
      && (copied.refusal == None <==> !AssetInTheWay(l, files, flags))
      && (copied.refusal == None && !flags.dryRun ==> copied.files == WriteAll(files, l.assets, src.asset))
      && (copied.refusal.Some? || flags.dryRun ==> copied.files == files)
      && (forall p :: p in l.Managed() || p == README ==>
            (p in copied.files <==> p in files) && (p in files ==> copied.files[p] == files[p]))
      && ManagedConflicts(l, l.Managed(), copied.files, flags.overwrite, flags.force)
           == ManagedConflicts(l, l.Managed(), files, flags.overwrite, flags.force)
      && (ManagedConflicts(l, l.Managed(), files, flags.overwrite, flags.force) != [] <==>
            ManagedInTheWay(l, files, flags))
  {
    var paths := l.assets;
    ExistingMeaning(paths, files);
    assert Existing(paths, files) != [] ==> Existing(paths, files)[0] in Existing(paths, files);
    WriteAllMeaning(files, paths, src.asset);
    var copied := CopyPhase(files, paths, flags, src.asset);
    ConflictsAgree(l, l.Managed(), files, copied.files, flags.overwrite, flags.force);
    ConflictMeansInTheWay(l, files, flags);
  }

  /** The complete outcome of a real `adopt`: which of the refusals applies, and for every path
      whether it exists afterwards and with what content. */
  lemma AdoptOutcome(l: Layout, files: Files, flags: Flags, src: Sources)
    requires Disjoint(l)
    requires !flags.dryRun && !(flags.force && !flags.overwrite)
    ensures var r := Adopt(l, files, flags, src);
      && (AssetInTheWay(l, files, flags) ==>
            r.files == files && r.refusal == Some(AssetsExist(Existing(l.assets, files))))
      && (!AssetInTheWay(l, files, flags) && ManagedInTheWay(l, files, flags) ==>
            && r.files == WriteAll(files, l.assets, src.asset)
            && r.refusal == Some(ManagedExist(ManagedConflicts(l, l.Managed(), files, flags.overwrite, flags.force))))
      && (!AssetInTheWay(l, files, flags) && !ManagedInTheWay(l, files, flags) ==>
            && r.refusal == None
            && (forall p :: p in r.files <==> p in files || p in l.assets || p in l.Managed())
            && (forall p :: p in l.assets ==> r.files[p] == src.asset(p))
            && (forall p :: p in l.Managed() ==> r.files[p] == src.rendered(p))
            && (forall p :: p in files && p !in l.assets && p !in l.Managed() ==>
                  r.files[p] == if p == README && flags.readmeLink then AppendSection(files[p], src.section)
                                else files[p]))
  {
    CopyKeepsManaged(l, files, flags, src);
    if !AssetInTheWay(l, files, flags) && !ManagedInTheWay(l, files, flags) {
      AdoptSucceeds(l, files, flags, src);
      WriteAllMeaning(files, l.assets, src.asset);
      WriteAllMeaning(WriteAll(files, l.assets, src.asset), l.Managed(), src.rendered);
    }
  }

  lemma AdoptSucceeds(l: Layout, files: Files, flags: Flags, src: Sources)
    requires Disjoint(l)
    requires !flags.dryRun && !(flags.force && !flags.overwrite)
    requires !AssetInTheWay(l, files, flags) && !ManagedInTheWay(l, files, flags)
    ensures var r := Adopt(l, files, flags, src);
            var written := WriteAll(WriteAll(files, l.assets, src.asset), l.Managed(), src.rendered);
      && r.refusal == None
      && r.files == if flags.readmeLink && README in files
                    then written[README := AppendSection(files[README], src.section)] else written
  {
    CopyKeepsManaged(l, files, flags, src);
    var copied := WriteAll(files, l.assets, src.asset);
    WriteAllMeaning(files, l.assets, src.asset);
    WriteAllMeaning(copied, l.Managed(), src.rendered);
    var written := WriteAll(copied, l.Managed(), src.rendered);
    assert README in files ==> written[README] == files[README];
    assert README in files ==> written[README := written[README]] == written;
  }

  /** Without --force-overwrite, whether the run succeeds or refuses, every file that was there
      keeps its content, but for README.md, which --readme-link appends to, and, under
      --overwrite, the two managed paths that the protected list leaves out. */
  lemma AdoptKeepsFiles(l: Layout, files: Files, flags: Flags, src: Sources, p: Path)
    requires Disjoint(l)
    requires !flags.force && p in files
    ensures var r := Adopt(l, files, flags, src).files;
      && p in r
      && (r[p] != files[p] ==>
            || (p == README && flags.readmeLink && r[p] == AppendSection(files[p], src.section))
            || (p in l.unprotected && flags.overwrite && r[p] == src.rendered(p)))
  {
    CopyKeepsManaged(l, files, flags, src);
    if !flags.dryRun {
      AdoptOutcome(l, files, flags, src);
      WriteAllMeaning(files, l.assets, src.asset);
      if p in l.Managed() && !AssetInTheWay(l, files, flags) && !ManagedInTheWay(l, files, flags) {
        assert !ManagedConflict(l, p, files, flags.overwrite, flags.force);
      }
    }
  }

  /** The run is not atomic: it refuses and yet leaves a changed tree exactly when no asset is in
      the way and a managed file is; what it leaves is the complete set of assets. */
  lemma AdoptHalfDone(l: Layout, files: Files, flags: Flags, src: Sources)
    requires Disjoint(l)
    ensures var r := Adopt(l, files, flags, src);
      r.refusal.Some? && r.files != files <==>
        && !flags.dryRun && !flags.force
        && !AssetInTheWay(l, files, flags) && ManagedInTheWay(l, files, flags)
  {
    if flags.force && !flags.overwrite {
    } else {
      CopyKeepsManaged(l, files, flags, src);
      if !flags.dryRun {
        AdoptOutcome(l, files, flags, src);
        WriteAllMeaning(files, l.assets, src.asset);
        assert l.assets[0] in l.assets;
        assert flags.force ==> !ManagedInTheWay(l, files, flags);
      }
    }
  }

  /** A dry run changes nothing, and it refuses exactly when the real run would, naming the same
      paths, although the real run tests the second phase on a tree that the first has changed. */
  lemma DryRunPredictsRefusal(l: Layout, files: Files, flags: Flags, src: Sources)
    requires Disjoint(l)
    ensures var dry := Adopt(l, files, flags.(dryRun := true), src);
      dry.files == files && dry.refusal == Adopt(l, files, flags.(dryRun := false), src).refusal
  {
    CopyKeepsManaged(l, files, flags.(dryRun := true), src);
    CopyKeepsManaged(l, files, flags.(dryRun := false), src);
    var dry, live := flags.(dryRun := true), flags.(dryRun := false);
    if !(flags.force && !flags.overwrite) { AdoptOutcome(l, files, live, src); }
  }

  /** The paths that a dry run announces. */
  predicate Announced(plan: seq<Action>, p: Path) {
    Create(p) in plan || Overwrite(p) in plan || Write(p) in plan || (p == README && AppendReadme in plan)
  }

  predicate ReadmeDue(files: Files, flags: Flags, src: Sources, p: Path) {
    p == README && flags.readmeLink && p in files && !Includes(ReadText(files[p]), src.section)
  }

  /** When the run goes through, the report of the dry run names exactly the paths that the real run
      writes: every other path keeps its state, `create` is said of new assets and `overwrite` of
      existing ones. */
  lemma DryRunPredictsWrites(l: Layout, files: Files, flags: Flags, src: Sources, p: Path)
    requires Disjoint(l)
    requires Adopt(l, files, flags.(dryRun := true), src).refusal == None
    ensures var plan := Adopt(l, files, flags.(dryRun := true), src).plan;
            var after := Adopt(l, files, flags.(dryRun := false), src).files;
      && (Announced(plan, p) <==> (p in l.assets || p in l.Managed() || ReadmeDue(files, flags, src, p)))
      && (Create(p) in plan <==> p in l.assets && p !in files)
      && (Overwrite(p) in plan <==> p in l.assets && p in files)
      && (Announced(plan, p) ==> p in after)
      && (!Announced(plan, p) ==> (p in after <==> p in files) && (p in files ==> after[p] == files[p]))
  {
    DryRunReport(l, files, flags, src, p);
    DryRunPredictsRefusal(l, files, flags, src);
    var live := flags.(dryRun := false);
    CopyKeepsManaged(l, files, live, src);
    AdoptOutcome(l, files, live, src);
  }

  lemma DryRunReport(l: Layout, files: Files, flags: Flags, src: Sources, p: Path)
    requires Disjoint(l)
    requires Adopt(l, files, flags.(dryRun := true), src).refusal == None
    ensures var plan := Adopt(l, files, flags.(dryRun := true), src).plan;
      && (Create(p) in plan <==> p in l.assets && p !in files)
      && (Overwrite(p) in plan <==> p in l.assets && p in files)
      && (Write(p) in plan <==> p in l.Managed())
      && (p == README ==> (AppendReadme in plan <==> ReadmeDue(files, flags, src, p)))
  {
    DryPlan(l, files, flags, src);
    ReportMembers(l, files, flags.overwrite && flags.force, LastAction(files, flags, src), p);
  }

  lemma ReportMembers(l: Layout, files: Files, forced: bool, last: seq<Action>, p: Path)
    requires forced || forall q :: q in l.assets ==> q !in files
    requires forall x :: x in last ==> x == AppendReadme
    ensures var plan := AssetPlan(l.assets, files, forced) + WritePlan(l.Managed()) + last;
      && (Create(p) in plan <==> p in l.assets && p !in files)
      && (Overwrite(p) in plan <==> p in l.assets && p in files)
      && (Write(p) in plan <==> p in l.Managed())
      && (AppendReadme in plan <==> last != [])
  {
    AssetPlanMeaning(l.assets, files, forced);
    WritePlanMeaning(l.Managed());
    InThree(AssetPlan(l.assets, files, forced), WritePlan(l.Managed()), last);
    assert last != [] ==> last[0] in last;
  }

  function LastAction(files: Files, flags: Flags, src: Sources): seq<Action> {
    if ReadmeDue(files, flags, src, README) then [AppendReadme] else []
  }

  lemma DryPlan(l: Layout, files: Files, flags: Flags, src: Sources)
    requires Disjoint(l)
    requires Adopt(l, files, flags.(dryRun := true), src).refusal == None
    ensures (flags.overwrite && flags.force) || forall p :: p in l.assets ==> p !in files
    ensures Adopt(l, files, flags.(dryRun := true), src).plan ==
              AssetPlan(l.assets, files, flags.overwrite && flags.force)
              + WritePlan(l.Managed()) + LastAction(files, flags, src)
  {
    CopyKeepsManaged(l, files, flags.(dryRun := true), src);
  }

  lemma InThree(a: seq<Action>, b: seq<Action>, c: seq<Action>)
    ensures forall x :: x in a + b + c <==> x in a || x in b || x in c
  {
  }

  lemma WritePlanMeaning(paths: seq<Path>)
    ensures forall p :: Write(p) in WritePlan(paths) <==> p in paths
    ensures forall a :: a in WritePlan(paths) ==> a.Write?
  {
    var w := WritePlan(paths);
    forall p | p in paths ensures Write(p) in w {
      var i :| 0 <= i < |paths| && paths[i] == p;
      assert w[i] == Write(p);
    }
  }

  // ---- the README section ---------------------------------------------------------------

  lemma IncludesMiddle(a: string, t: string, b: string)
    ensures Includes(a + t + b, t)
  {
    var s := a + t + b;
    assert s[|a|..|a| + |t|] == t;
    assert OccursAt(s, t, |a|);
  }

  /** Appending a second time changes nothing. */
  lemma AppendIdempotent(raw: string, section: string)
    requires '\r' !in section
    ensures var once := AppendSection(raw, section); AppendSection(once, section) == once
  {
    var text := ReadText(raw);
    if !Includes(text, section) {
      var once := AppendSection(raw, section);
      ReadTextHasNoReturn(raw);
      Appended(text, section);
      ReadTextKeepsPlainPrefix(once, []);
      assert once + [] == once;
    }
  }

  lemma Appended(text: string, section: string)
    requires '\r' !in text && '\r' !in section
    ensures var out := RStrip(text) + "\n\n" + section + "\n";
      RStrip(text) <= out && Includes(out, section) && '\r' !in out
  {
    var head := RStrip(text) + "\n\n";
    IncludesMiddle(head, section, "\n");
    assert forall c :: c in RStrip(text) ==> c in text;
    assert RStrip(text) <= head && head <= head + section && head + section <= head + section + "\n";
  }

  lemma Behind(head: string, section: string)
    ensures var out := head + "\n\n" + section + "\n"; out[|head|..] == "\n\n" + section + "\n"
  {
  }

  /** The append keeps the original text, but for trailing white space, exactly when that text has
      no carriage return: reading converts the line ends of the whole file. */
  lemma AppendKeepsText(raw: string, section: string)
    requires '\r' !in section
    ensures var out := AppendSection(raw, section);
      && (Includes(ReadText(raw), section) ==> out == raw)
      && (!Includes(ReadText(raw), section) ==>
            && RStrip(ReadText(raw)) <= out && Includes(out, section)
            && out[|RStrip(ReadText(raw))|..] == "\n\n" + section + "\n")
      && (RStrip(raw) <= out <==> Includes(ReadText(raw), section) || '\r' !in RStrip(raw))
  {
    ReadTextHasNoReturn(raw);
    if !Includes(ReadText(raw), section) {
      var out := AppendSection(raw, section);
      Appended(ReadText(raw), section);
      Behind(RStrip(ReadText(raw)), section);
      if '\r' !in RStrip(raw) {
        StripAfterReading(raw);
      } else {
        assert RStrip(raw) <= out ==> forall c :: c in RStrip(raw) ==> c in out;
      }
    }
  }

  /** A README with one Windows line end loses it to the append. */
  lemma AppendRewritesLineEnds(section: string)
    requires '\r' !in section && |section| > 3
    ensures var out := AppendSection("a\r\nb", section);
      out == "a\nb" + "\n\n" + section + "\n" && !("a\r\nb" <= out)
  {
    var raw := "a\r\nb";
    assert raw[2..] == "\nb" && raw[1..][0] == '\r' && raw[1..][1] == '\n';
    assert raw[1..][2..] == "b" && "b"[1..] == "";
    assert ReadText("b") == "b";
    assert ReadText(raw[1..]) == "\nb";
    assert ReadText(raw) == "a\nb";
    assert RStrip("a\nb") == "a\nb";
  }

  // ---- new ------------------------------------------------------------------------------

  /** What `--minimal` removes. */
  predicate Cleaned(p: Path) {
    FIXTURES <= p || p == QUALITY_DOC
  }

  function TemplatePhase(files: Files, shipped: Files, place: Place, flags: Flags): Result {
    if place == Nested then Result(files, Some(NestedTarget), [])
    else if files != map[] && place != Same && !flags.overwrite then Result(files, Some(TargetNotEmpty), [])
    else if files != map[] && place != Same && flags.overwrite && !flags.force && shipped.Keys * files.Keys != {} then
      Result(files, Some(TemplateCollision(shipped.Keys * files.Keys)), [])
    else if place != Same && !flags.dryRun then Result(files + shipped, None, [])
    else Result(files, None, [])
  }

  function CleanPhase(files: Files, dryRun: bool): Result {
    if dryRun then Result(files, None, [Clean])
    else Result(map p | p in files && !Cleaned(p) :: files[p], None, [])
  }

  /** `new`. `shipped` is the template without the paths that the copy ignores. */
  function New(l: Layout, files: Files, shipped: Files, place: Place, flags: Flags, src: Sources): Result {
    if flags.force && !flags.overwrite then Result(files, Some(ForceNeedsOverwrite), [])
    else
      var copied := TemplatePhase(files, shipped, place, flags);
      if copied.refusal.Some? then copied
      else
        var managed := Then(copied, ManagedPhase(l, copied.files, true, true, flags.dryRun, src.rendered));
        if managed.refusal.Some? || !flags.minimal then managed
        else Then(managed, CleanPhase(managed.files, flags.dryRun))
  }

  lemma NoMembers(s: seq<Path>)
    ensures s == [] <==> forall p :: p !in s
  {
    assert s != [] ==> s[0] in s;
  }

  lemma NewManaged(l: Layout, files: Files, dryRun: bool, rendered: Path -> string)
    ensures ManagedPhase(l, files, true, true, dryRun, rendered).refusal == None
    ensures !dryRun ==>
              ManagedPhase(l, files, true, true, dryRun, rendered).files == WriteAll(files, l.Managed(), rendered)
    ensures dryRun ==> ManagedPhase(l, files, true, true, dryRun, rendered).files == files
  {
    ConflictsMeaning(l, l.Managed(), files, true, true);
    NoMembers(ManagedConflicts(l, l.Managed(), files, true, true));
  }

  /** A refused `new` leaves the tree alone, and so does every dry run, which refuses exactly when
      the real run would. */
  lemma NewDryRun(l: Layout, files: Files, shipped: Files, place: Place, flags: Flags, src: Sources)
    ensures var dry := New(l, files, shipped, place, flags.(dryRun := true), src);
            var live := New(l, files, shipped, place, flags.(dryRun := false), src);
      && dry.files == files
      && dry.refusal == live.refusal
      && (live.refusal.Some? ==> live.files == files)
  {
    var dry, live := flags.(dryRun := true), flags.(dryRun := false);
    NewManaged(l, TemplatePhase(files, shipped, place, dry).files, true, src.rendered);
    NewManaged(l, TemplatePhase(files, shipped, place, live).files, false, src.rendered);
  }

  /** The report of a dry run of `new` consists of the managed paths and, with --minimal, the cleanup. */
  lemma NewDryRunReport(l: Layout, files: Files, shipped: Files, place: Place, flags: Flags, src: Sources)
    requires flags.dryRun && New(l, files, shipped, place, flags, src).refusal == None
    ensures New(l, files, shipped, place, flags, src).plan
         == WritePlan(l.Managed()) + if flags.minimal then [Clean] else []
  {
    NewManaged(l, files, true, src.rendered);
    assert [] + WritePlan(l.Managed()) == WritePlan(l.Managed());
  }

  predicate Changed(before: Files, after: Files, p: Path) {
    (p in before) != (p in after) || (p in before && before[p] != after[p])
  }

  /** What a dry run of `new` says about the path `p`: that it is written, or cleaned up. */
  predicate NewAnnounced(plan: seq<Action>, p: Path) {
    Announced(plan, p) || (Clean in plan && Cleaned(p))
  }

  /** What the dry run of `new` does not tell: a path is changed unannounced exactly if the target lies
      elsewhere and the template ships the path with a content that the target does not have, and
      the path is neither managed nor cleaned up. Nothing is announced but managed paths and the
      cleanup. */
  lemma NewDryRunSilence(l: Layout, files: Files, shipped: Files, place: Place, flags: Flags, src: Sources, p: Path)
    requires New(l, files, shipped, place, flags.(dryRun := true), src).refusal == None
    ensures var plan := New(l, files, shipped, place, flags.(dryRun := true), src).plan;
            var after := New(l, files, shipped, place, flags.(dryRun := false), src).files;
      && (Announced(plan, p) <==> p in l.Managed())
      && (Changed(files, after, p) && !NewAnnounced(plan, p) <==>
            && place == Elsewhere && p in shipped && (p !in files || files[p] != shipped[p])
            && p !in l.Managed() && !(flags.minimal && Cleaned(p)))
  {
    var dry, live := flags.(dryRun := true), flags.(dryRun := false);
    NewDryRun(l, files, shipped, place, flags, src);
    NewDryRunReport(l, files, shipped, place, dry, src);
    NewOutcome(l, files, shipped, place, live, src, p);
    WritePlanMeaning(l.Managed());
    var last := if flags.minimal then [Clean] else [];
    InThree(WritePlan(l.Managed()), last, []);
    assert WritePlan(l.Managed()) + last + [] == WritePlan(l.Managed()) + last;
  }

  /** Why `new` refuses: a nested target, or a non-empty one that is not the template itself,
      without --overwrite or, without --force-overwrite, with a file that the template ships too. */
  ghost predicate NewInTheWay(files: Files, shipped: Files, place: Place, flags: Flags) {
    || place == Nested
    || (place == Elsewhere && !flags.overwrite && exists p :: p in files)
    || (place == Elsewhere && !flags.force && exists p :: p in files && p in shipped)
  }

  /** And with which refusal: the first of the four that applies; a collision names exactly the files
      that are in both trees. */
  lemma NewRefuses(l: Layout, files: Files, shipped: Files, place: Place, flags: Flags, src: Sources)
    ensures var r := New(l, files, shipped, place, flags, src).refusal;
      && (r.Some? <==> (flags.force && !flags.overwrite) || NewInTheWay(files, shipped, place, flags))
      && (r == Some(ForceNeedsOverwrite) <==> flags.force && !flags.overwrite)
      && (r == Some(NestedTarget) <==> !(flags.force && !flags.overwrite) && place == Nested)
      && (r == Some(TargetNotEmpty) <==>
            place == Elsewhere && !flags.force && !flags.overwrite && exists p :: p in files)
      && (r.Some? && r.value.TemplateCollision? ==>
            forall p :: p in r.value.collisions <==> p in files && p in shipped)
  {
    NewManaged(l, TemplatePhase(files, shipped, place, flags).files, flags.dryRun, src.rendered);
    SomeFile(files);
    assert forall p :: p in shipped.Keys * files.Keys <==> p in files && p in shipped;
    assert shipped.Keys * files.Keys != {} ==> exists p :: p in shipped.Keys * files.Keys;
  }

  lemma SomeFile(files: Files)
    ensures files != map[] <==> exists p :: p in files
  {
    if files != map[] {
      assert files.Keys != {};
      var p :| p in files.Keys;
    }
  }

  /** The complete outcome of a `new` that goes through, path by path. */
  lemma NewOutcome(l: Layout, files: Files, shipped: Files, place: Place, flags: Flags, src: Sources, p: Path)
    requires !flags.dryRun && New(l, files, shipped, place, flags, src).refusal == None
    ensures var r := New(l, files, shipped, place, flags, src).files;
            var copied := place == Elsewhere && p in shipped;
            var removed := flags.minimal && ("fixtures/" <= p || p == "docs/BOOTSTRAP_QUALITY.md");
      && (p in r <==> (p in files || copied || p in l.Managed()) && !removed)
      && (p in r ==> r[p] == if p in l.Managed() then src.rendered(p) else if copied then shipped[p] else files[p])
  {
    var copied := TemplatePhase(files, shipped, place, flags).files;
    NewManaged(l, copied, false, src.rendered);
    WriteAllMeaning(copied, l.Managed(), src.rendered);
  }

  /** What --overwrite without --force-overwrite does to a file that is already in the target of a
      successful `new`. The collision test only knows the shipped paths: a file that the template
      does not ship is still replaced when its path is a managed one, and --minimal still deletes
      it when it lies where the template keeps its fixtures. */
  lemma NewUnforcedOutcome(l: Layout, files: Files, shipped: Files, flags: Flags, src: Sources, p: Path)
    requires !flags.dryRun && !flags.force && p in files
    requires New(l, files, shipped, Elsewhere, flags, src).refusal == None
    ensures var r := New(l, files, shipped, Elsewhere, flags, src).files;
      && p !in shipped
      && (p in r <==> !(flags.minimal && Cleaned(p)))
      && (p in r ==> r[p] == if p in l.Managed() then src.rendered(p) else files[p])
  {
    NewRefuses(l, files, shipped, Elsewhere, flags, src);
    NewOutcome(l, files, shipped, Elsewhere, flags, src, p);
  }

  // ---- the script's own procedures ------------------------------------------------------

  class Target {
    var files: Files
    var report: seq<Action>

    constructor (files: Files)
      ensures this.files == files && report == []
    {
      this.files := files;
      report := [];
    }

    /** `plan_asset_actions` */
    method PlanAssetActions(paths: seq<Path>, flags: Flags) returns (actions: seq<Action>, conflicts: seq<Path>)
      ensures var forced := flags.overwrite && flags.force;
        && actions == AssetPlan(paths, files, forced)
        && conflicts == if forced then [] else Existing(paths, files)
    {
      actions, conflicts := [], [];
      for i := 0 to |paths|
        invariant actions == AssetPlan(paths[..i], files, flags.overwrite && flags.force)
        invariant conflicts == if flags.overwrite && flags.force then [] else Existing(paths[..i], files)
      {
        assert paths[..i + 1][..i] == paths[..i];
        if paths[i] in files {
          if flags.overwrite && flags.force {
            actions := actions + [Overwrite(paths[i])];
          } else {
            conflicts := conflicts + [paths[i]];
          }
        } else {
          actions := actions + [Create(paths[i])];
        }
      }
      assert paths[..|paths|] == paths;
    }

    /** `copy_assets` */
    method CopyAssets(paths: seq<Path>, flags: Flags, asset: Path -> string) returns (refusal: Option<Refusal>)
      modifies this
      ensures var r := CopyPhase(old(files), paths, flags, asset);
        files == r.files && refusal == r.refusal && report == old(report) + r.plan
    {
      var actions, conflicts := PlanAssetActions(paths, flags);
      if |conflicts| > 0 && !(flags.overwrite && flags.force) {
        return Some(AssetsExist(conflicts));
      }
      if flags.dryRun {
        report := report + actions;
        return None;
      }
      WriteFiles(paths, asset);
      return None;
    }

    method WriteFiles(paths: seq<Path>, content: Path -> string)
      modifies this`files
      ensures files == WriteAll(old(files), paths, content)
    {
      for i := 0 to |paths|
        invariant files == WriteAll(old(files), paths[..i], content)
      {
        assert paths[..i + 1][..i] == paths[..i];
        files := files[paths[i] := content(paths[i])];
      }
      assert paths[..|paths|] == paths;
    }

    /** The conflict loop of `apply_managed_files`. */
    method FindManagedConflicts(l: Layout, paths: seq<Path>, overwrite: bool, force: bool)
      returns (conflicts: seq<Path>)
      ensures conflicts == ManagedConflicts(l, paths, files, overwrite, force)
    {
      conflicts := [];
      for i := 0 to |paths|
        invariant conflicts == ManagedConflicts(l, paths[..i], files, overwrite, force)
      {
        assert paths[..i + 1][..i] == paths[..i];
        if paths[i] in files && !overwrite {
          conflicts := conflicts + [paths[i]];
        }
        if paths[i] in files && overwrite && !force && paths[i] in l.protected {
          conflicts := conflicts + [paths[i]];
        }
      }
      assert paths[..|paths|] == paths;
    }

    method ReportWrites(paths: seq<Path>)
      modifies this`report
      ensures report == old(report) + WritePlan(paths)
    {
      for i := 0 to |paths|
        invariant report == old(report) + WritePlan(paths)[..i]
      {
        report := report + [Write(paths[i])];
      }
      assert WritePlan(paths)[..|paths|] == WritePlan(paths);
    }

    /** `apply_managed_files` */
    method ApplyManagedFiles(l: Layout, overwrite: bool, force: bool, dryRun: bool, rendered: Path -> string)
      returns (refusal: Option<Refusal>)
      modifies this
      ensures var r := ManagedPhase(l, old(files), overwrite, force, dryRun, rendered);
        files == r.files && refusal == r.refusal && report == old(report) + r.plan
    {
      var conflicts := FindManagedConflicts(l, l.Managed(), overwrite, force);
      if |conflicts| > 0 {
        return Some(ManagedExist(conflicts));
      }
      if dryRun {
        ReportWrites(l.Managed());
        return None;
      }
      WriteFiles(l.Managed(), rendered);
      return None;
    }

    /** `maybe_append_readme_link` */
    method MaybeAppendReadmeLink(dryRun: bool, section: string)
      modifies this
      ensures var r := ReadmePhase(old(files), dryRun, section);
        files == r.files && r.refusal == None && report == old(report) + r.plan
    {
      if README !in files {
        return;
      }
      var text := ReadText(files[README]);
      if Includes(text, section) {
        return;
      }
      if dryRun {
        report := report + [AppendReadme];
        return;
      }
      files := files[README := RStrip(text) + "\n\n" + section + "\n"];
    }

    /** `main` for the `adopt` command. */
    method RunAdopt(l: Layout, flags: Flags, src: Sources) returns (refusal: Option<Refusal>)
      requires report == []
      modifies this
      ensures var r := Adopt(l, old(files), flags, src);
        files == r.files && refusal == r.refusal && report == r.plan
    {
      if flags.force && !flags.overwrite {
        return Some(ForceNeedsOverwrite);
      }
      refusal := CopyAssets(l.assets, flags, src.asset);
      ghost var copied := CopyPhase(old(files), l.assets, flags, src.asset);
      assert [] + copied.plan == copied.plan;
      if refusal.Some? { return; }
      refusal := ApplyManagedFiles(l, flags.overwrite, flags.force, flags.dryRun, src.rendered);
      ghost var managed := Then(copied,
        ManagedPhase(l, copied.files, flags.overwrite, flags.force, flags.dryRun, src.rendered));
      assert files == managed.files && refusal == managed.refusal && report == managed.plan;
      if refusal.Some? || !flags.readmeLink { return; }
      MaybeAppendReadmeLink(flags.dryRun, src.section);
    }

    /** `copy_template_tree` */
    method CopyTemplateTree(shipped: Files, place: Place, flags: Flags) returns (refusal: Option<Refusal>)
      modifies this`files
      ensures var r := TemplatePhase(old(files), shipped, place, flags);
        files == r.files && refusal == r.refusal
    {
      if place == Nested {
        return Some(NestedTarget);
      }
      if files != map[] && place != Same && !flags.overwrite {
        return Some(TargetNotEmpty);
      }
      if files != map[] && place != Same && flags.overwrite && !flags.force {
        var conflicts := shipped.Keys * files.Keys;
        if conflicts != {} {
          return Some(TemplateCollision(conflicts));
        }
      }
      if place != Same && !flags.dryRun {
        files := files + shipped;
      }
      return None;
    }

    /** `main` for the `new` command. */
    method RunNew(l: Layout, shipped: Files, place: Place, flags: Flags, src: Sources)
      returns (refusal: Option<Refusal>)
      requires report == []
      modifies this
      ensures var r := New(l, old(files), shipped, place, flags, src);
        files == r.files && refusal == r.refusal && report == r.plan
    {
      if flags.force && !flags.overwrite {
        return Some(ForceNeedsOverwrite);
      }
      refusal := CopyTemplateTree(shipped, place, flags);
      if refusal.Some? { return; }
      refusal := ApplyManagedFiles(l, true, true, flags.dryRun, src.rendered);
      if refusal.Some? { return; }
      if flags.minimal {
        MinimalCleanup(flags.dryRun);
      }
    }

    /** `minimal_cleanup` */
    method MinimalCleanup(dryRun: bool)
      modifies this
      ensures var r := CleanPhase(old(files), dryRun); files == r.files && report == old(report) + r.plan
    {
      if dryRun {
        report := report + [Clean];
        return;
      }
      files := map p | p in files && !Cleaned(p) :: files[p];
    }
  }
}
