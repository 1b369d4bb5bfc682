/**
 What updating or installing one tool starts under bash, told by the commands themselves:
 the installation's own update, the package manager beside it, or the fixed commands.
 */
module UpdateRuns {
  import opened Text
  import opened PosixShell
  import opened Quoting
  import opened Installations
  import opened ToolCommands
  import opened AnchoredText
  import opened LifecycleScript

  // ---------- where an installation comes from ----------

  predicate MatchesAt(s: string, i: nat, marker: string)
    requires i + |marker| <= |s|
  {
    forall k | 0 <= k < |marker| :: LowerChar(s[i + k]) == marker[k]
  }

  /** The text occurs somewhere, in upper or lower case. */
  predicate Holds(s: string, marker: string) {
    exists i | 0 <= i <= |s| - |marker| :: MatchesAt(s, i, marker)
  }

  /** The same with either separator for a slash. */
  predicate HoldsMarker(path: string, marker: string) {
    Holds(Slashed(path), marker)
  }

  function Slashed(path: string): (r: string)
    ensures |r| == |path|
  {
    seq(|path|, i requires 0 <= i < |path| => if path[i] == '\\' then '/' else path[i])
  }

  lemma {:induction false} SlashedReplaces(path: string)
    ensures ReplaceChar(path, '\\', "/") == Slashed(path)
    decreases |path|
  {
    if path != "" {
      SlashedReplaces(path[1..]);
      var head := if path[0] == '\\' then "/" else [path[0]];
      assert head + Slashed(path[1..]) == Slashed(path);
    }
  }

  lemma {:induction false} ContainsAt(s: string, marker: string)
    ensures Contains(ToAsciiLower(s), marker) <==> Holds(s, marker)
    decreases |s|
  {
    var lower := ToAsciiLower(s);
    if |marker| <= |s| {
      assert StartsWith(lower, marker) <==> MatchesAt(s, 0, marker) by {
        if MatchesAt(s, 0, marker) {
          assert lower[..|marker|] == marker;
        }
      }
    }
    if s != "" {
      ContainsAt(s[1..], marker);
      assert lower[1..] == ToAsciiLower(s[1..]);
      HoldsLater(s, marker);
    }
  }

  lemma HoldsLater(s: string, marker: string)
    requires s != ""
    ensures Holds(s, marker) <==> (|marker| <= |s| && MatchesAt(s, 0, marker)) || Holds(s[1..], marker)
  {
    var rest := s[1..];
    forall i | 0 <= i <= |rest| - |marker| ensures MatchesAt(rest, i, marker) <==> MatchesAt(s, i + 1, marker) {
      assert forall k | 0 <= k < |marker| ::
          LowerChar(rest[i + k]) == marker[k] <==> LowerChar(s[i + 1 + k]) == marker[k];
    }
    if i: nat :| i <= |s| - |marker| && MatchesAt(s, i, marker) {
      if i > 0 {
        assert MatchesAt(rest, i - 1, marker);
      }
    }
    if i: nat :| i <= |rest| - |marker| && MatchesAt(rest, i, marker) {
      assert MatchesAt(s, i + 1, marker);
    }
  }

  /** The source of an installation is told by the first of these directories in its path. */
  lemma SourceIsTheFirstMarker(path: string)
    ensures InferInstallSource(path) ==
            if HoldsMarker(path, "/.nvm/") then Nvm
            else if HoldsMarker(path, "/homebrew/") || HoldsMarker(path, "/cellar/") then Homebrew
            else if HoldsMarker(path, "/.volta/") || HoldsMarker(path, "/volta/") then Volta
            else if HoldsMarker(path, "fnm_multishells") then Fnm
            else if HoldsMarker(path, "/mise/") then Mise
            else if HoldsMarker(path, "/.bun/") then Bun
            else if HoldsMarker(path, "/pnpm/") then Pnpm
            else if HoldsMarker(path, "/scoop/") then Scoop
            else if HoldsMarker(path, "/library/python") || HoldsMarker(path, "/scripts/")
                    || HoldsMarker(path, "/site-packages/") then Pip
            else InstallSource.System
  {
    var lower := ToAsciiLower(Slashed(path));
    SlashedReplaces(path);
    forall marker: string ensures Contains(lower, marker) == HoldsMarker(path, marker) {
      ContainsAt(Slashed(path), marker);
    }
  }

  // ---------- the tables ----------

  /** The tools that update themselves first, and the words they take. */
  function OwnWords(tool: string): Option<Command> {
    if tool == "claude" then Some(["update"])
    else if tool == "opencode" then Some(["upgrade"])
    else if tool == "openclaw" then Some(["update", "--yes"])
    else None
  }

  function Package(tool: string): Option<string> {
    if tool == "claude" then Some("@anthropic-ai/claude-code")
    else if tool == "codex" then Some("@openai/codex")
    else if tool == "gemini" then Some("@google/gemini-cli")
    else if tool == "opencode" then Some("opencode-ai")
    else if tool == "openclaw" then Some("openclaw")
    else None
  }

  predicate HasNpmBeside(source: InstallSource) {
    source in {Nvm, Fnm, Mise, Homebrew}
  }

  function InDir(dir: string, exe: string): string {
    dir + "/" + exe
  }

  /** The package manager beside an installation in `dir`, and how it updates a package. */
  function Manager(dir: string, source: InstallSource, pkg: string): Option<Command> {
    if dir == "" then None
    else if source == Volta then Some([InDir(dir, "volta"), "install", pkg])
    else if source == Bun then Some([InDir(dir, "bun"), "add", "-g", pkg + "@latest"])
    else if HasNpmBeside(source) then Some([InDir(dir, "npm"), "i", "-g", pkg + "@latest"])
    else None
  }

  /** The path segment behind the first `Cellar`, in any case, names a formula. */
  predicate NamesFormula(realTarget: string, formula: string) {
    var segments := Split(realTarget, '/');
    && formula != ""
    && exists i :: 0 <= i < |segments| - 1 && segments[i + 1] == formula && IsFirstCellar(segments, i)
  }

  predicate IsFirstCellar(segments: seq<string>, i: nat) {
    && i < |segments| && ToAsciiLower(segments[i]) == "cellar"
    && forall j | 0 <= j < i :: ToAsciiLower(segments[j]) != "cellar"
  }

  ghost predicate NamesNoFormula(realTarget: string) {
    forall formula :: !NamesFormula(realTarget, formula)
  }

  predicate IsNativeClaude(tool: string, realTarget: string) {
    tool == "claude" && (Holds(realTarget, "/.local/share/claude/") || Holds(realTarget, "/claude/versions/"))
  }

  /**
   The chosen installation is the file `name` in `dir`, whose last separator is `sep`. Every
   absolute path has this form.
   */
  predicate IsChosen(
    installs: seq<ToolInstallation>, x: ToolInstallation, dir: string, sep: char, name: string)
  {
    && DefaultInstall(installs) == Some(x)
    && (sep == '/' || sep == '\\') && '/' !in name && '\\' !in name
    && x.path == dir + [sep] + name && x.path[0] == '/'
  }

  // ---------- the generated plans ----------

  lemma {:induction false} LastSeparatorIs(before: string, name: string)
    requires before != "" && (before[|before| - 1] == '/' || before[|before| - 1] == '\\')
    requires '/' !in name && '\\' !in name
    ensures AfterLastSeparator(before + name) == |before|
    decreases |name|
  {
    var p := before + name;
    if name == "" {
      assert p == before;
    } else {
      var last := |name| - 1;
      assert p[|p| - 1] == name[last] && p[..|p| - 1] == before + name[..last];
      LastSeparatorIs(before, name[..last]);
    }
  }

  lemma SiblingIs(
    installs: seq<ToolInstallation>, x: ToolInstallation, dir: string, sep: char, name: string, exe: string)
    requires IsChosen(installs, x, dir, sep, name)
    ensures SiblingBin(x.path, exe) == if dir == "" then None else Some(InDir(dir, exe))
  {
    LastSeparatorIs(dir + [sep], name);
    assert x.path[..|dir|] == dir;
  }

  lemma {:induction false} FormulaAt(segments: seq<string>, formula: string)
    ensures FormulaIn(segments) == Some(formula) <==>
            formula != "" &&
            exists i :: 0 <= i < |segments| - 1 && segments[i + 1] == formula && IsFirstCellar(segments, i)
    decreases |segments|
  {
    if segments != [] {
      var rest := segments[1..];
      if ToAsciiLower(segments[0]) == "cellar" {
        assert IsFirstCellar(segments, 0);
        forall i | 0 <= i < |segments| && IsFirstCellar(segments, i) ensures i == 0 {
        }
      } else {
        FormulaAt(rest, formula);
        forall i: nat | i < |rest| ensures IsFirstCellar(rest, i) <==> IsFirstCellar(segments, i + 1) {
          CellarShifts(segments, i);
        }
        if i :| 0 <= i < |segments| - 1 && segments[i + 1] == formula && IsFirstCellar(segments, i) {
          assert i > 0;
          assert IsFirstCellar(rest, i - 1) && rest[i] == formula;
        }
        if i :| 0 <= i < |rest| - 1 && rest[i + 1] == formula && IsFirstCellar(rest, i) {
          assert IsFirstCellar(segments, i + 1) && segments[i + 1 + 1] == formula;
        }
      }
    }
  }

  lemma CellarShifts(segments: seq<string>, i: nat)
    requires i + 1 < |segments| && ToAsciiLower(segments[0]) != "cellar"
    ensures IsFirstCellar(segments[1..], i) <==> IsFirstCellar(segments, i + 1)
  {
    var rest := segments[1..];
    if IsFirstCellar(rest, i) {
      forall j | 0 <= j < i + 1 ensures ToAsciiLower(segments[j]) != "cellar" {
        if j > 0 {
          assert segments[j] == rest[j - 1];
        }
      }
    }
    if IsFirstCellar(segments, i + 1) {
      forall j | 0 <= j < i ensures ToAsciiLower(rest[j]) != "cellar" {
        assert segments[j + 1] == rest[j];
      }
    }
  }

  lemma FormulaIs(realTarget: string, formula: string)
    ensures BrewFormulaFromPath(realTarget) == Some(formula) <==> NamesFormula(realTarget, formula)
  {
    FormulaAt(Split(realTarget, '/'), formula);
  }

  lemma NoFormulaIs(realTarget: string)
    ensures BrewFormulaFromPath(realTarget).None? <==> NamesNoFormula(realTarget)
  {
    forall formula ensures BrewFormulaFromPath(realTarget) == Some(formula) <==> NamesFormula(realTarget, formula) {
      FormulaIs(realTarget, formula);
    }
  }

  /** A command at an absolute path whose words are these and whose other words print as they are. */
  predicate Prints(c: Args, words: Command) {
    StartsAtPath(c) && TailIsPlain(c) && ArgWords(c) == words
  }

  lemma PrintedIsSafe(c: Args, words: Command, files: Files)
    requires Prints(c, words) && SurvivesLightQuoting(words[0], files)
    ensures SafeArgs(c, files)
  {
    assert words[0] == ArgWords(c)[0] == c[0].path;
    SafeParts(c, files);
  }

  lemma WordsBehindPath(p: string, args: Args)
    ensures ArgWords([Path(p)] + args) == [p] + ArgWords(args)
  {
  }

  lemma OwnUpdateIs(tool: string, path: string)
    requires OwnWords(tool).Some? && path != "" && path[0] == '/'
    ensures var update := AnchoredOfficialUpdate(tool, path);
            PrefersOfficialUpdate(tool) && update.Some? && Prints(update.value, [path] + OwnWords(tool).value)
  {
    OfficialShape(tool, path);
    WordsBehindPath(path, OfficialUpdateArgs(tool).value);
    assert ArgWords(OfficialUpdateArgs(tool).value) == OwnWords(tool).value;
  }

  lemma ManagerWords(dir: string, pkg: string)
    ensures ArgWords([Path(InDir(dir, "volta"))] + [Bare("install"), Bare(pkg)])
         == [InDir(dir, "volta"), "install", pkg]
    ensures ArgWords([Path(InDir(dir, "bun"))] + [Bare("add"), Bare("-g"), Bare(pkg + "@latest")])
         == [InDir(dir, "bun"), "add", "-g", pkg + "@latest"]
    ensures ArgWords([Path(InDir(dir, "npm"))] + [Bare("i"), Bare("-g"), Bare(pkg + "@latest")])
         == [InDir(dir, "npm"), "i", "-g", pkg + "@latest"]
  {
  }

  lemma ManagerIs(
    tool: string, installs: seq<ToolInstallation>, x: ToolInstallation, dir: string, sep: char, name: string)
    requires IsChosen(installs, x, dir, sep, name) && NamesNoFormula(x.realPath) && Package(tool).Some?
    ensures var c := PackageManagerCommand(tool, x.path, x.realPath);
            var manager := Manager(dir, InferInstallSource(x.path), Package(tool).value);
            && (c.Some? <==> manager.Some?)
            && (c.Some? ==> Prints(c.value, manager.value))
  {
    NoFormulaIs(x.realPath);
    var c := PackageManagerCommand(tool, x.path, x.realPath);
    var pkg := Package(tool).value;
    assert NpmPackageFor(tool) == Some(pkg);
    SiblingIs(installs, x, dir, sep, name, "volta");
    SiblingIs(installs, x, dir, sep, name, "bun");
    SiblingIs(installs, x, dir, sep, name, "npm");
    if c.Some? {
      PackageManagerShape(tool, x.path, x.realPath);
      ManagerWords(dir, pkg);
    }
  }

  // ---------- the run of one request ----------

  /** The generated script for one tool is read by bash, starts these commands and ends like this. */
  ghost predicate Starts(r: Request, outcomes: Outcomes, files: Files, trace: seq<Command>, ok: bool) {
    var script := LifecycleScript.Script([r]);
    script.Some? &&
    var run := RunBash(script.value, outcomes, files);
    run.Some? && run.value.trace == trace && (run.value.status == 0 <==> ok)
  }

  lemma OneListRuns(list: OrList, outcomes: Outcomes)
    ensures RunTools([[list]], [], outcomes) == TryAlternatives(list, [], outcomes)
  {
    var v := TryAlternatives(list, [], outcomes);
    LastStep(list, [], outcomes);
    assert [[list]][1..] == [];
    assert RunTools([], v.trace, outcomes) == Verdict(v.trace, true);
  }

  lemma OneCommandStarts(r: Request, c: Args, words: Command, outcomes: Outcomes, files: Files)
    requires GoodRequest(r, files) && ActionPlan(r.tool, r.action) == Some([[c]])
    requires ArgWords(c) == words && |words| >= 2
    ensures Starts(r, outcomes, files, [words], outcomes([], words) == 0)
  {
    GeneratedScriptRunsInOrder([r], outcomes, files);
    OnePlan(r);
    assert OrLists([[c]]) == [[words]] by {
      assert OrListOf([c]) == [words];
    }
    OneListRuns([words], outcomes);
    assert [] + [words] == [words];
  }

  lemma TwoCommandsStart(
    r: Request, first: Args, second: Args, primary: Command, fallback: Command, outcomes: Outcomes, files: Files)
    requires GoodRequest(r, files) && ActionPlan(r.tool, r.action) == Some([[first, second]])
    requires ArgWords(first) == primary && ArgWords(second) == fallback
    ensures Starts(r, outcomes, files,
                   if outcomes([], primary) == 0 then [primary] else [primary, fallback],
                   outcomes([], primary) == 0 || outcomes([primary], fallback) == 0)
  {
    FallbackRunsIffPrimaryFails(r, outcomes, files);
  }

  // ---------- what an update starts ----------

  /**
   Claude, OpenCode and OpenClaw, unless Homebrew owns them: the installation updates itself,
   and the package manager beside it, if there is one, starts only after that has failed.
   */
  lemma SelfUpdateRunsFirst(
    tool: string, installs: seq<ToolInstallation>, x: ToolInstallation, dir: string, sep: char, name: string,
    outcomes: Outcomes, files: Files)
    requires OwnWords(tool).Some? && IsChosen(installs, x, dir, sep, name)
    requires NamesNoFormula(x.realPath) && !IsNativeClaude(tool, x.realPath)
    requires SurvivesLightQuoting(x.path, files)
    requires var manager := Manager(dir, InferInstallSource(x.path), Package(tool).value);
             manager.Some? ==> SurvivesLightQuoting(manager.value[0], files)
    ensures var own := [x.path] + OwnWords(tool).value;
            var manager := Manager(dir, InferInstallSource(x.path), Package(tool).value);
            Starts(Request(tool, Update(installs)), outcomes, files,
                   if outcomes([], own) == 0 || manager.None? then [own] else [own, manager.value],
                   outcomes([], own) == 0 || (manager.Some? && outcomes([own], manager.value) == 0))
    ensures PlanCommandFor(tool, installs).2
  {
    var r := Request(tool, Update(installs));
    var own := [x.path] + OwnWords(tool).value;
    var manager := Manager(dir, InferInstallSource(x.path), Package(tool).value);
    var update, fallback := SelfUpdateIs(tool, installs, x, dir, sep, name);
    PrintedIsSafe(update, own, files);
    if manager.Some? {
      PrintedIsSafe(fallback.value, manager.value, files);
      TwoCommandsStart(r, update, fallback.value, own, manager.value, outcomes, files);
    } else {
      OneCommandStarts(r, update, own, outcomes, files);
    }
  }

  lemma SelfUpdateIs(
    tool: string, installs: seq<ToolInstallation>, x: ToolInstallation, dir: string, sep: char, name: string)
    returns (update: Args, fallback: Option<Args>)
    requires OwnWords(tool).Some? && IsChosen(installs, x, dir, sep, name)
    requires NamesNoFormula(x.realPath) && !IsNativeClaude(tool, x.realPath)
    ensures ActionPlan(tool, Update(installs)) ==
            Some([if fallback.Some? then [update, fallback.value] else [update]])
    ensures PlanCommandFor(tool, installs).2
    ensures Prints(update, [x.path] + OwnWords(tool).value)
    ensures var manager := Manager(dir, InferInstallSource(x.path), Package(tool).value);
            (fallback.Some? <==> manager.Some?) && (fallback.Some? ==> Prints(fallback.value, manager.value))
  {
    update, fallback := AnchoredOfficialUpdate(tool, x.path).value, PackageManagerCommand(tool, x.path, x.realPath);
    OwnUpdateIs(tool, x.path);
    ManagerIs(tool, installs, x, dir, sep, name);
    NoFormulaIs(x.realPath);
    SelfUpdatePlan(tool, x.path, x.realPath);
    AnchoredPlanIs(tool, installs, x, [if fallback.Some? then [update, fallback.value] else [update]]);
  }

  lemma SelfUpdatePlan(tool: string, path: string, realTarget: string)
    requires OwnWords(tool).Some? && !IsNativeClaude(tool, realTarget) && BrewFormulaFromPath(realTarget).None?
    ensures var update := AnchoredOfficialUpdate(tool, path);
            var fallback := PackageManagerCommand(tool, path, realTarget);
            update.Some? && AnchoredCommandFromPaths(tool, path, realTarget) ==
            Some([if fallback.Some? then [update.value, fallback.value] else [update.value]])
  {
    NotNative(tool, realTarget);
  }

  lemma NotNative(tool: string, realTarget: string)
    ensures var lower := ToAsciiLower(realTarget);
            IsNativeClaude(tool, realTarget) <==>
            tool == "claude" && (Contains(lower, "/.local/share/claude/") || Contains(lower, "/claude/versions/"))
  {
    ContainsAt(realTarget, "/.local/share/claude/");
    ContainsAt(realTarget, "/claude/versions/");
  }

  /** Hermes, wherever it is, and a natively installed Claude: nothing but their own update. */
  lemma OnlyTheOwnUpdateRuns(
    tool: string, installs: seq<ToolInstallation>, x: ToolInstallation, outcomes: Outcomes, files: Files)
    requires tool == "hermes" || IsNativeClaude(tool, x.realPath)
    requires DefaultInstall(installs) == Some(x) && x.path != "" && x.path[0] == '/'
    requires SurvivesLightQuoting(x.path, files)
    ensures var own := [x.path, "update"];
            Starts(Request(tool, Update(installs)), outcomes, files, [own], outcomes([], own) == 0)
    ensures PlanCommandFor(tool, installs).2
  {
    var update := AnchoredOfficialUpdate(tool, x.path).value;
    OfficialShape(tool, x.path);
    NotNative(tool, x.realPath);
    UpdateWord(x.path);
    assert update == [Path(x.path)] + [Bare("update")];
    PrintedIsSafe(update, [x.path, "update"], files);
    assert AnchoredCommandFromPaths(tool, x.path, x.realPath) == Some([[update]]);
    OneCommandStarts(Request(tool, Update(installs)), update, [x.path, "update"], outcomes, files);
  }

  lemma UpdateWord(path: string)
    ensures ArgWords([Path(path)] + [Bare("update")]) == [path, "update"]
  {
  }

  /** What Homebrew owns is upgraded by the `brew` beside it and by nothing else. */
  lemma OnlyBrewUpgradesAFormula(
    tool: string, installs: seq<ToolInstallation>, x: ToolInstallation, dir: string, sep: char, name: string,
    formula: string, outcomes: Outcomes, files: Files)
    requires tool != "hermes" && !IsNativeClaude(tool, x.realPath)
    requires IsChosen(installs, x, dir, sep, name) && dir != "" && NamesFormula(x.realPath, formula)
    requires SurvivesLightQuoting(InDir(dir, "brew"), files) && Stays(formula, files)
    ensures var upgrade := [InDir(dir, "brew"), "upgrade", formula];
            Starts(Request(tool, Update(installs)), outcomes, files, [upgrade], outcomes([], upgrade) == 0)
    ensures PlanCommandFor(tool, installs).2
  {
    var c := [Path(InDir(dir, "brew")), Bare("upgrade"), Bare(formula)];
    SiblingIs(installs, x, dir, sep, name, "brew");
    FormulaIs(x.realPath, formula);
    NotNative(tool, x.realPath);
    assert [Path(InDir(dir, "brew"))] + [Bare("upgrade"), Bare(formula)] == c;
    assert PackageManagerCommand(tool, x.path, x.realPath) == Some(c);
    PackageManagerShape(tool, x.path, x.realPath);
    UpgradeIsSafe(c, files);
    FormulaPlanIs(tool, installs, x, c);
    UpgradeWords(InDir(dir, "brew"), formula);
    OneCommandStarts(
      Request(tool, Update(installs)), c, [InDir(dir, "brew"), "upgrade", formula], outcomes, files);
  }

  lemma FormulaPlanIs(tool: string, installs: seq<ToolInstallation>, x: ToolInstallation, c: Args)
    requires DefaultInstall(installs) == Some(x) && BrewFormulaFromPath(x.realPath).Some?
    requires tool != "hermes" && !IsNativeClaude(tool, x.realPath)
    requires PackageManagerCommand(tool, x.path, x.realPath) == Some(c)
    ensures ActionPlan(tool, Update(installs)) == Some([[c]]) && PlanCommandFor(tool, installs).2
  {
    NotNative(tool, x.realPath);
    FormulaIsNotRepaired(x.path, x.realPath);
  }

  lemma FormulaIsNotRepaired(path: string, realTarget: string)
    requires BrewFormulaFromPath(realTarget).Some?
    ensures CodexRepairCommand(path, realTarget).None?
  {
  }

  lemma UpgradeWords(brew: string, formula: string)
    ensures ArgWords([Path(brew), Bare("upgrade"), Bare(formula)]) == [brew, "upgrade", formula]
  {
  }

  /** Codex is reinstalled, not updated, when it does not run and npm lies beside it. */
  predicate NeedsRepair(tool: string, x: ToolInstallation) {
    tool == "codex" && !x.runnable && HasNpmBeside(InferInstallSource(x.path))
  }

  /** Codex and Gemini are updated by the package manager beside them and by nothing else. */
  lemma OnlyTheManagerUpdates(
    tool: string, installs: seq<ToolInstallation>, x: ToolInstallation, dir: string, sep: char, name: string,
    outcomes: Outcomes, files: Files)
    requires (tool == "codex" || tool == "gemini") && !NeedsRepair(tool, x)
    requires IsChosen(installs, x, dir, sep, name) && NamesNoFormula(x.realPath)
    requires var manager := Manager(dir, InferInstallSource(x.path), Package(tool).value);
             manager.Some? && SurvivesLightQuoting(manager.value[0], files)
    ensures var words := Manager(dir, InferInstallSource(x.path), Package(tool).value).value;
            Starts(Request(tool, Update(installs)), outcomes, files, [words], outcomes([], words) == 0)
    ensures PlanCommandFor(tool, installs).2
  {
    var words := Manager(dir, InferInstallSource(x.path), Package(tool).value).value;
    ManagerIs(tool, installs, x, dir, sep, name);
    NoFormulaIs(x.realPath);
    var c := PackageManagerCommand(tool, x.path, x.realPath).value;
    PrintedIsSafe(c, words, files);
    ManagerAlone(tool, x.path, x.realPath);
    AnchoredPlanIs(tool, installs, x, [[c]]);
    OneCommandStarts(Request(tool, Update(installs)), c, words, outcomes, files);
  }

  lemma ManagerAlone(tool: string, path: string, realTarget: string)
    requires tool == "codex" || tool == "gemini"
    ensures AnchoredCommandFromPaths(tool, path, realTarget) == Alone(PackageManagerCommand(tool, path, realTarget))
  {
  }

  lemma AnchoredPlanIs(tool: string, installs: seq<ToolInstallation>, x: ToolInstallation, plan: Plan)
    requires DefaultInstall(installs) == Some(x) && !NeedsRepair(tool, x)
    requires AnchoredCommandFromPaths(tool, x.path, x.realPath) == Some(plan)
    ensures ActionPlan(tool, Update(installs)) == Some(plan) && PlanCommandFor(tool, installs).2
  {
  }

  /** And such a Codex is uninstalled and installed again, whether or not the first succeeds. */
  lemma RepairReinstalls(
    installs: seq<ToolInstallation>, x: ToolInstallation, dir: string, sep: char, name: string,
    outcomes: Outcomes, files: Files)
    requires NeedsRepair("codex", x)
    requires IsChosen(installs, x, dir, sep, name) && dir != "" && NamesNoFormula(x.realPath)
    requires SurvivesLightQuoting(InDir(dir, "npm"), files)
    ensures var uninstall := [InDir(dir, "npm"), "uninstall", "-g", "@openai/codex"];
            var install := [InDir(dir, "npm"), "i", "-g", "@openai/codex@latest"];
            Starts(Request("codex", Update(installs)), outcomes, files,
                   [uninstall, install], outcomes([uninstall], install) == 0)
    ensures PlanCommandFor("codex", installs).2
  {
    var r := Request("codex", Update(installs));
    SiblingIs(installs, x, dir, sep, name, "npm");
    NoFormulaIs(x.realPath);
    var plan := CodexRepairCommand(x.path, x.realPath).value;
    assert ActionPlan(r.tool, r.action) == Some(plan);
    RepairIsSafe(x.path, x.realPath, plan, files);
    GeneratedScriptRunsInOrder([r], outcomes, files);
    OnePlan(r);
    OnePlanRuns(OrLists(plan), outcomes);
    RepairAlwaysReinstalls(x.path, x.realPath, [], outcomes);
    var npm := InDir(dir, "npm");
    OneThenOne([npm, "uninstall", "-g", "@openai/codex"], [npm, "i", "-g", "@openai/codex@latest"]);
  }

  lemma OneThenOne(a: Command, b: Command)
    ensures [] + [a] == [a] && [] + [a] + [b] == [a, b]
  {
  }

  lemma RepairIsSafe(path: string, realTarget: string, plan: Plan, files: Files)
    requires path != "" && path[0] == '/' && CodexRepairCommand(path, realTarget) == Some(plan)
    requires SurvivesLightQuoting(SiblingBin(path, "npm").value, files)
    ensures SafePlan(plan, files)
  {
    RepairShape(path, realTarget);
    SafeParts(plan[0][0], files);
    SafeParts(plan[1][0], files);
    TrueIsSafe(plan[0][1], files);
    assert SafeAlternatives(plan[0], files) && SafeAlternatives(plan[1], files);
  }

  lemma OnePlanRuns(lists: seq<OrList>, outcomes: Outcomes)
    ensures RunTools([lists], [], outcomes) == RunSteps(lists, [], outcomes)
  {
    var v := RunSteps(lists, [], outcomes);
    assert [lists][1..] == [];
    assert RunTools([], v.trace, outcomes) == Verdict(v.trace, true);
  }

  // ---------- without an installation to go by ----------

  /** Nothing beside the chosen installation can update the tool, and nor can the tool itself. */
  ghost predicate IsUnanchored(tool: string, x: ToolInstallation, dir: string) {
    && !IsNativeClaude(tool, x.realPath) && Package(tool).Some?
    && if NamesNoFormula(x.realPath)
       then OwnWords(tool).None? && Manager(dir, InferInstallSource(x.path), Package(tool).value).None?
       else dir == ""
  }

  function NpmInstall(tool: string): Command
    requires Package(tool).Some?
  {
    ["npm", "i", "-g", Package(tool).value + "@latest"]
  }

  lemma NpmInstallIs(tool: string)
    requires Package(tool).Some?
    ensures NpmInstallCommandFor(tool).Some? && ArgWords(NpmInstallCommandFor(tool).value) == NpmInstall(tool)
  {
    assert NpmPackageFor(tool) == Package(tool);
    NpmWords(Package(tool).value + "@latest");
  }

  lemma NpmWords(name: string)
    ensures ArgWords([Bare("npm"), Bare("i"), Bare("-g"), Bare(name)]) == ["npm", "i", "-g", name]
  {
  }

  lemma UnanchoredHasNoCommand(
    tool: string, installs: seq<ToolInstallation>, x: ToolInstallation, dir: string, sep: char, name: string)
    requires IsChosen(installs, x, dir, sep, name) && IsUnanchored(tool, x, dir)
    ensures InstallsAnchoredCommand(tool, installs).None?
  {
    NotNative(tool, x.realPath);
    NoFormulaIs(x.realPath);
    SiblingIs(installs, x, dir, sep, name, "brew");
    SiblingIs(installs, x, dir, sep, name, "npm");
    if NamesNoFormula(x.realPath) {
      ManagerIs(tool, installs, x, dir, sep, name);
    }
  }

  /**
   Then the same tools update themselves by name and fall back to npm, and the others are
   installed by npm.
   */
  lemma FixedUpdateRuns(
    tool: string, installs: seq<ToolInstallation>, x: ToolInstallation, dir: string, sep: char, name: string,
    outcomes: Outcomes, files: Files)
    requires Package(tool).Some?
    requires DefaultInstall(installs).None? || (IsChosen(installs, x, dir, sep, name) && IsUnanchored(tool, x, dir))
    ensures var r, npm := Request(tool, Update(installs)), NpmInstall(tool);
            if OwnWords(tool).None? then Starts(r, outcomes, files, [npm], outcomes([], npm) == 0)
            else
              var own := [tool] + OwnWords(tool).value;
              Starts(r, outcomes, files, if outcomes([], own) == 0 then [own] else [own, npm],
                     outcomes([], own) == 0 || outcomes([own], npm) == 0)
    ensures !PlanCommandFor(tool, installs).2
  {
    var r, npm := Request(tool, Update(installs)), NpmInstall(tool);
    if DefaultInstall(installs).Some? {
      UnanchoredHasNoCommand(tool, installs, x, dir, sep, name);
    }
    StaticPlansAreSafe(tool, files);
    NpmInstallIs(tool);
    var install := NpmInstallCommandFor(tool).value;
    if OwnWords(tool).None? {
      assert StaticUpdate(tool) == Some([[install]]);
      OneCommandStarts(r, install, npm, outcomes, files);
    } else {
      var own := [Bare(tool)] + OfficialUpdateArgs(tool).value;
      OwnWordsByName(tool);
      assert StaticUpdate(tool) == Some([[own, install]]);
      TwoCommandsStart(r, own, install, [tool] + OwnWords(tool).value, npm, outcomes, files);
    }
  }

  lemma OwnWordsByName(tool: string)
    requires OwnWords(tool).Some?
    ensures PrefersOfficialUpdate(tool) && OfficialUpdateArgs(tool).Some?
    ensures ArgWords([Bare(tool)] + OfficialUpdateArgs(tool).value) == [tool] + OwnWords(tool).value
  {
    assert ArgWords(OfficialUpdateArgs(tool).value) == OwnWords(tool).value;
  }

  // ---------- installers ----------

  /** Downloads a script, runs it, and ends with its status. */
  function RunsInstaller(url: string): Command {
    ["bash", "-c",
     "tmp=$(mktemp) && curl -fsSL " + url + (" -o $tmp && bash $tmp; " + "status=$?; rm -f $tmp; exit $status")]
  }

  function HermesUrl(): string {
    "https://raw.githubusercontent.com" + ("/NousResearch/hermes-agent" + "/main/scripts/install.sh")
  }

  lemma InstallerWords(url: string)
    ensures ArgWords(InstallerScript(url)) == RunsInstaller(url)
  {
  }

  /** The installer of a tool that has one of its own besides npm. */
  function InstallerUrl(tool: string): Option<string> {
    if tool == "claude" then Some("https://claude.ai/install.sh")
    else if tool == "opencode" then Some("https://opencode.ai/install")
    else None
  }

  /** Hermes without an installation: its own update by name, else its installer. */
  lemma FixedHermesUpdateRuns(installs: seq<ToolInstallation>, outcomes: Outcomes, files: Files)
    requires DefaultInstall(installs).None?
    ensures var own, installer := ["hermes", "update"], RunsInstaller(HermesUrl());
            Starts(Request("hermes", Update(installs)), outcomes, files,
                   if outcomes([], own) == 0 then [own] else [own, installer],
                   outcomes([], own) == 0 || outcomes([own], installer) == 0)
    ensures !PlanCommandFor("hermes", installs).2
  {
    var own := [Bare("hermes"), Bare("update")];
    StaticPlansAreSafe("hermes", files);
    InstallerWords(HermesUrl());
    assert ArgWords(own) == ["hermes", "update"];
    TwoCommandsStart(Request("hermes", Update(installs)), own, HERMES_INSTALLER, ["hermes", "update"],
                     RunsInstaller(HermesUrl()), outcomes, files);
  }

  /** Claude and OpenCode are installed by their installer, else by npm; the others by npm. */
  lemma InstallRuns(tool: string, outcomes: Outcomes, files: Files)
    requires Package(tool).Some?
    ensures var r, npm := Request(tool, Install), NpmInstall(tool);
            if InstallerUrl(tool).None? then Starts(r, outcomes, files, [npm], outcomes([], npm) == 0)
            else
              var installer := RunsInstaller(InstallerUrl(tool).value);
              Starts(r, outcomes, files, if outcomes([], installer) == 0 then [installer] else [installer, npm],
                     outcomes([], installer) == 0 || outcomes([installer], npm) == 0)
  {
    var r, npm := Request(tool, Install), NpmInstall(tool);
    StaticPlansAreSafe(tool, files);
    NpmInstallIs(tool);
    var install := NpmInstallCommandFor(tool).value;
    if InstallerUrl(tool).None? {
      assert InstallPlan(tool) == Some([[install]]);
      OneCommandStarts(r, install, npm, outcomes, files);
    } else {
      var url := InstallerUrl(tool).value;
      InstallerWords(url);
      assert InstallPlan(tool) == Some([[InstallerScript(url), install]]);
      TwoCommandsStart(r, InstallerScript(url), install, RunsInstaller(url), npm, outcomes, files);
    }
  }

  lemma HermesInstallRuns(outcomes: Outcomes, files: Files)
    ensures var installer := RunsInstaller(HermesUrl());
            Starts(Request("hermes", Install), outcomes, files, [installer], outcomes([], installer) == 0)
  {
    StaticPlansAreSafe("hermes", files);
    InstallerWords(HermesUrl());
    assert InstallPlan("hermes") == Some([[HERMES_INSTALLER]]);
    OneCommandStarts(
      Request("hermes", Install), HERMES_INSTALLER, RunsInstaller(HermesUrl()), outcomes, files);
  }

  // ---------- what the user is asked ----------

  /** An update asks for confirmation exactly when the search reaches at least two files. */
  lemma ConfirmsTwoFiles(tool: string, dirs: seq<seq<string>>, fs: FileSystem, pathDefault: Option<string>)
    ensures PlanCommandFor(tool, Enumerated(dirs, fs, pathDefault)).1 <==>
            |Installations.Files(FlattenDirs(dirs), fs)| >= 2
  {
    DefaultInstallIsExact(dirs, fs, pathDefault);
  }
}
