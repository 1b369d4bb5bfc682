/**
 The POSIX commands that install and update a tool. A plan is what the source builds as
 text; `PlanText` is that text, and the theorems below read the text back with the
 shell's own rules.
 */
module ToolCommands {
  import opened Text
  import opened PosixShell
  import opened Quoting
  import opened Installations

  /** One word as the source writes it: a lightly quoted path, bare text, or a single-quoted script. */
  datatype Arg = Path(path: string) | Bare(text: string) | Script(body: string)

  type Args = seq<Arg>

  /** Alternatives, tried until one succeeds: `a || b`. */
  type Alternatives = seq<Args>

  /** Steps run one after the other: `a || b; c`. */
  type Plan = seq<Alternatives>

  function ArgText(a: Arg): string {
    match a
    case Path(p) => QuotePathIfSpaced(p)
    case Bare(w) => w
    case Script(body) => "'" + body + "'"
  }

  function ArgWord(a: Arg): string {
    match a
    case Path(p) => p
    case Bare(w) => w
    case Script(body) => body
  }

  function ArgTexts(c: Args): (r: seq<string>)
    ensures |r| == |c|
  {
    seq(|c|, i requires 0 <= i < |c| => ArgText(c[i]))
  }

  function ArgWords(c: Args): (r: Command)
    ensures |r| == |c|
  {
    seq(|c|, i requires 0 <= i < |c| => ArgWord(c[i]))
  }

  function CommandText(c: Args): string {
    Join(ArgTexts(c), " ")
  }

  function AlternativesText(alternatives: Alternatives): string {
    if alternatives == [] then ""
    else if |alternatives| == 1 then CommandText(alternatives[0])
    else CommandText(alternatives[0]) + (" || " + AlternativesText(alternatives[1..]))
  }

  function PlanText(plan: Plan): string {
    if plan == [] then ""
    else if |plan| == 1 then AlternativesText(plan[0])
    else AlternativesText(plan[0]) + ("; " + PlanText(plan[1..]))
  }

  // ---------- what the tools need ----------

  function NpmPackageFor(tool: string): Option<string> {
    if tool == "claude" then Some("@anthropic-ai/claude-code")
    else if tool == "codex" then Some("@openai/codex")
    else if tool == "gemini" then Some("@google/gemini-cli")
    else if tool == "opencode" then Some("opencode-ai")
    else if tool == "openclaw" then Some("openclaw")
    else None
  }

  function NpmInstallCommandFor(tool: string): Option<Args> {
    match NpmPackageFor(tool)
    case None => None
    case Some(pkg) => Some([Bare("npm"), Bare("i"), Bare("-g"), Bare(pkg + "@latest")])
  }

  function OfficialUpdateArgs(tool: string): Option<Args> {
    if tool == "claude" || tool == "codex" || tool == "hermes" then Some([Bare("update")])
    else if tool == "openclaw" then Some([Bare("update"), Bare("--yes")])
    else if tool == "opencode" then Some([Bare("upgrade")])
    else None
  }

  predicate PrefersOfficialUpdate(tool: string) {
    tool == "claude" || tool == "opencode" || tool == "openclaw"
  }

  /** Downloads an installer to a temporary file, runs it, and exits with its status. */
  function InstallerScript(url: string): Args {
    [Bare("bash"), Bare("-c"),
     Script(SCRIPT_HEAD + url + SCRIPT_TAIL)]
  }

  const SCRIPT_HEAD := "tmp=$(mktemp) && curl -fsSL "
  const SCRIPT_TAIL := " -o $tmp && bash $tmp; " + "status=$?; rm -f $tmp; exit $status"

  const CLAUDE_INSTALLER := InstallerScript("https://claude.ai/install.sh")
  const OPENCODE_INSTALLER := InstallerScript("https://opencode.ai/install")
  const HERMES_URL :=
    "https://raw.githubusercontent.com" + ("/NousResearch/hermes-agent" + "/main/scripts/install.sh")
  const HERMES_INSTALLER := InstallerScript(HERMES_URL)

  /** The commands used when no installation can be anchored. */
  function StaticUpdate(tool: string): Option<Plan> {
    if tool == "hermes" then Some([[[Bare("hermes"), Bare("update")], HERMES_INSTALLER]])
    else match NpmInstallCommandFor(tool)
      case None => None
      case Some(install) =>
        if PrefersOfficialUpdate(tool) && OfficialUpdateArgs(tool).Some?
        then Some([[[Bare(tool)] + OfficialUpdateArgs(tool).value, install]])
        else Some([[install]])
  }

  function InstallPlan(tool: string): Option<Plan> {
    if tool == "hermes" then Some([[HERMES_INSTALLER]])
    else match NpmInstallCommandFor(tool)
      case None => None
      case Some(npm) =>
        if tool == "claude" then Some([[CLAUDE_INSTALLER, npm]])
        else if tool == "opencode" then Some([[OPENCODE_INSTALLER, npm]])
        else Some([[npm]])
  }

  // ---------- anchoring to an installation ----------

  /** One past the last separator of either kind, or 0. */
  function AfterLastSeparator(p: string): (i: nat)
    ensures i <= |p|
    ensures i > 0 ==> p[i - 1] == '/' || p[i - 1] == '\\'
    ensures '/' !in p[i..] && '\\' !in p[i..]
  {
    if p == "" then 0
    else
      var last := |p| - 1;
      if p[last] == '/' || p[last] == '\\' then |p|
      else
        var i := AfterLastSeparator(p[..last]);
        assert p[i..] == p[..last][i..] + [p[last]];
        assert i > 0 ==> p[..last][i - 1] == p[i - 1];
        i
  }

  /** The directory part by text alone; empty where there is none or it is the root. */
  function ParentDir(p: string): string {
    var i := AfterLastSeparator(p);
    if i > 1 then p[..i - 1] else ""
  }

  function SiblingBin(binPath: string, exe: string): Option<string> {
    var dir := ParentDir(binPath);
    if dir == "" then None else Some(dir + "/" + exe)
  }

  /** The path segment after the first `Cellar`, if it is not empty. */
  function BrewFormulaFromPath(realTarget: string): Option<string> {
    FormulaIn(Split(realTarget, '/'))
  }

  function FormulaIn(segments: seq<string>): Option<string> {
    if segments == [] then None
    else if ToAsciiLower(segments[0]) == "cellar" then
      if |segments| > 1 && segments[1] != "" then Some(segments[1]) else None
    else FormulaIn(segments[1..])
  }

  function AnchoredOfficialUpdate(tool: string, binPath: string): Option<Args> {
    match OfficialUpdateArgs(tool)
    case None => None
    case Some(args) => Some([Path(binPath)] + args)
  }

  function Beside(binPath: string, exe: string, args: Args): Option<Args> {
    match SiblingBin(binPath, exe)
    case None => None
    case Some(p) => Some([Path(p)] + args)
  }

  predicate HasSiblingNpm(source: InstallSource) {
    source == Nvm || source == Fnm || source == Mise || source == Homebrew
  }

  function PackageManagerCommand(tool: string, binPath: string, realTarget: string): Option<Args> {
    match BrewFormulaFromPath(realTarget)
    case Some(formula) => Beside(binPath, "brew", [Bare("upgrade"), Bare(formula)])
    case None =>
      match NpmPackageFor(tool)
      case None => None
      case Some(pkg) =>
        var source := InferInstallSource(binPath);
        if source == Volta then Beside(binPath, "volta", [Bare("install"), Bare(pkg)])
        else if source == Bun then Beside(binPath, "bun", [Bare("add"), Bare("-g"), Bare(pkg + "@latest")])
        else if HasSiblingNpm(source) then Beside(binPath, "npm", [Bare("i"), Bare("-g"), Bare(pkg + "@latest")])
        else None
  }

  function Alone(c: Option<Args>): Option<Plan> {
    match c
    case None => None
    case Some(command) => Some([[command]])
  }

  function AnchoredCommandFromPaths(tool: string, binPath: string, realTarget: string): Option<Plan> {
    var lower := ToAsciiLower(realTarget);
    var package := PackageManagerCommand(tool, binPath, realTarget);
    if tool == "hermes" then Alone(AnchoredOfficialUpdate(tool, binPath))
    else if tool == "claude" && (Contains(lower, "/.local/share/claude/") || Contains(lower, "/claude/versions/")) then
      Alone(AnchoredOfficialUpdate(tool, binPath))
    else if BrewFormulaFromPath(realTarget).Some? then Alone(package)
    else if PrefersOfficialUpdate(tool) then
      match AnchoredOfficialUpdate(tool, binPath)
      case None => None
      case Some(update) =>
        match package
        case None => Some([[update]])
        case Some(fallback) => Some([[update, fallback]])
    else Alone(package)
  }

  function CodexRepairCommand(binPath: string, realTarget: string): Option<Plan> {
    if BrewFormulaFromPath(realTarget).Some? || !HasSiblingNpm(InferInstallSource(binPath)) then None
    else match SiblingBin(binPath, "npm")
      case None => None
      case Some(npm) =>
        Some([[[Path(npm), Bare("uninstall"), Bare("-g"), Bare("@openai/codex")], [Bare("true")]],
              [[Path(npm), Bare("i"), Bare("-g"), Bare("@openai/codex@latest")]]])
  }

  function InstallsAnchoredCommand(tool: string, installs: seq<ToolInstallation>): Option<Plan> {
    match DefaultInstall(installs)
    case None => None
    case Some(inst) =>
      if tool == "codex" && !inst.runnable && CodexRepairCommand(inst.path, inst.realPath).Some?
      then CodexRepairCommand(inst.path, inst.realPath)
      else AnchoredCommandFromPaths(tool, inst.path, inst.realPath)
  }

  /** The update plan, whether the user must confirm it, and whether it is anchored. */
  function PlanCommandFor(tool: string, installs: seq<ToolInstallation>): (Option<Plan>, bool, bool) {
    match InstallsAnchoredCommand(tool, installs)
    case Some(plan) => (Some(plan), |installs| >= 2, true)
    case None => (StaticUpdate(tool), |installs| >= 2, false)
  }

  datatype ToolAction = Install | Update(installs: seq<ToolInstallation>)

  /** The plan whose text is the tool's line in a script; None for an unsupported tool. */
  function ActionPlan(tool: string, action: ToolAction): Option<Plan> {
    match action
    case Install => InstallPlan(tool)
    case Update(installs) => PlanCommandFor(tool, installs).0
  }

  // ---------- reading the text back ----------

  predicate SafeArg(a: Arg, files: Files) {
    match a
    case Path(p) => SurvivesLightQuoting(p, files)
    case Bare(w) => Stays(w, files)
    case Script(body) => '\'' !in body
  }

  predicate SafeArgs(c: Args, files: Files) {
    c != [] && forall i | 0 <= i < |c| :: SafeArg(c[i], files)
  }

  predicate SafeAlternatives(alternatives: Alternatives, files: Files) {
    alternatives != [] && forall i | 0 <= i < |alternatives| :: SafeArgs(alternatives[i], files)
  }

  predicate SafePlan(plan: Plan, files: Files) {
    forall i | 0 <= i < |plan| :: SafeAlternatives(plan[i], files)
  }

  function OrListOf(alternatives: Alternatives): (r: OrList)
    ensures |r| == |alternatives|
  {
    seq(|alternatives|, i requires 0 <= i < |alternatives| => ArgWords(alternatives[i]))
  }

  /** The OR lists the plan stands for. */
  function OrLists(plan: Plan): (r: seq<OrList>)
    ensures |r| == |plan|
  {
    seq(|plan|, i requires 0 <= i < |plan| => OrListOf(plan[i]))
  }

  lemma ArgDenotes(a: Arg, files: Files)
    requires SafeArg(a, files)
    ensures Denotes(ArgText(a), ArgWord(a), files)
  {
    match a
    case Path(p) => LightQuotingDenotes(p, files);
    case Bare(w) => StayingDenotesItself(w, files);
    case Script(body) =>
      ReplaceCharAbsent(body, '\'', SPLICE);
      SingleQuoteRoundTrip(body, files);
  }

  lemma LexArgs(c: Args, rest: string, files: Files)
    requires SafeArgs(c, files) && Terminated(rest)
    ensures Lex(CommandText(c) + rest, files) == Prepend(WordTokens(ArgWords(c)), Lex(rest, files))
  {
    forall i | 0 <= i < |c| ensures Denotes(ArgTexts(c)[i], ArgWords(c)[i], files) {
      ArgDenotes(c[i], files);
    }
    LexWords(ArgTexts(c), ArgWords(c), rest, files);
  }

  lemma LexOr(tail: string, files: Files)
    ensures Lex(" || " + tail, files) == Prepend([OrIf], Lex(tail, files))
  {
    var spaced := " " + tail;
    var bars := "||" + spaced;
    assert " || " + tail == " " + bars;
    assert bars[2..] == spaced;
    LexBlank(bars, files);
    LexBlank(tail, files);
  }

  lemma LexOrAndMore(text: string, words: Command, more: string, ts: seq<Token>, r: Option<seq<Token>>, files: Files)
    requires forall rest | Terminated(rest) :: Lex(text + rest, files) == Prepend(WordTokens(words), Lex(rest, files))
    requires Lex(more, files) == Prepend(ts, r)
    ensures Lex(text + (" || " + more), files) == Prepend(WordTokens(words) + ([OrIf] + ts), r)
  {
    LexOr(more, files);
    PrependTwice([OrIf], ts, r);
    PrependTwice(WordTokens(words), [OrIf] + ts, r);
    assert Terminated(" || " + more);
  }

  lemma {:induction false} LexAlternatives(alternatives: Alternatives, rest: string, files: Files)
    requires SafeAlternatives(alternatives, files) && Terminated(rest)
    ensures Lex(AlternativesText(alternatives) + rest, files)
         == Prepend(ListTokens(OrListOf(alternatives)), Lex(rest, files))
    decreases |alternatives|
  {
    if |alternatives| == 1 {
      LexArgs(alternatives[0], rest, files);
    } else {
      var first, others := CommandText(alternatives[0]), AlternativesText(alternatives[1..]);
      forall next | Terminated(next)
        ensures Lex(first + next, files) == Prepend(WordTokens(ArgWords(alternatives[0])), Lex(next, files))
      {
        LexArgs(alternatives[0], next, files);
      }
      LexAlternatives(alternatives[1..], rest, files);
      ConcatAssociates(first, " || " + others, rest);
      ConcatAssociates(" || ", others, rest);
      assert OrListOf(alternatives)[1..] == OrListOf(alternatives[1..]);
      LexOrAndMore(
        first, ArgWords(alternatives[0]), others + rest,
        ListTokens(OrListOf(alternatives[1..])), Lex(rest, files), files);
    }
  }

  lemma LexSemi(tail: string, files: Files)
    ensures Lex("; " + tail, files) == Prepend([Semi], Lex(tail, files))
  {
    assert ("; " + tail)[1..] == " " + tail;
    LexBlank(tail, files);
  }

  lemma {:induction false} LexPlan(plan: Plan, rest: string, files: Files)
    requires SafePlan(plan, files) && Terminated(rest)
    ensures Lex(PlanText(plan) + rest, files) == Prepend(LineTokens(OrLists(plan)), Lex(rest, files))
    decreases |plan|
  {
    if plan == [] {
      NothingBefore(rest);
      PrependNothing(Lex(rest, files));
    } else if |plan| == 1 {
      LexAlternatives(plan[0], rest, files);
    } else {
      var others := PlanText(plan[1..]);
      var ts := LineTokens(OrLists(plan[1..]));
      ConcatAssociates(AlternativesText(plan[0]), "; " + others, rest);
      ConcatAssociates("; ", others, rest);
      LexAlternatives(plan[0], "; " + (others + rest), files);
      LexSemi(others + rest, files);
      LexPlan(plan[1..], rest, files);
      assert OrLists(plan)[1..] == OrLists(plan[1..]);
      PrependTwice([Semi], ts, Lex(rest, files));
      PrependTwice(ListTokens(OrListOf(plan[0])), [Semi] + ts, Lex(rest, files));
    }
  }

  /** The text of a safe plan is one line that the shell reads as exactly the plan's OR lists. */
  lemma PlanTextMeans(plan: Plan, files: Files)
    requires SafePlan(plan, files)
    ensures LineMeans(PlanText(plan), OrLists(plan), files)
  {
    forall rest | rest == "" || rest[0] == '\n'
      ensures Lex(PlanText(plan) + rest, files) == Prepend(LineTokens(OrLists(plan)), Lex(rest, files))
    {
      LexPlan(plan, rest, files);
    }
  }

  // ---------- which plans are safe ----------

  /** The light quoting carries such a path through a shell whatever files there are. */
  predicate IsPlainPath(p: string) {
    ' ' in p || IsPlainWord(p)
  }

  predicate IsPlainArg(a: Arg) {
    match a
    case Path(p) => IsPlainPath(p)
    case Bare(w) => IsPlainWord(w)
    case Script(body) => '\'' !in body
  }

  predicate ArePlain(c: Args) {
    c != [] && forall i | 0 <= i < |c| :: IsPlainArg(c[i])
  }

  predicate ArePlainAlternatives(alternatives: Alternatives) {
    alternatives != [] && forall i | 0 <= i < |alternatives| :: ArePlain(alternatives[i])
  }

  predicate IsPlainPlan(plan: Plan) {
    forall i | 0 <= i < |plan| :: ArePlainAlternatives(plan[i])
  }

  lemma PlainArgIsSafe(a: Arg, files: Files)
    requires IsPlainArg(a)
    ensures SafeArg(a, files)
  {
  }

  /** Plain plans are safe whatever files there are. */
  lemma PlainPlanIsSafe(plan: Plan, files: Files)
    requires IsPlainPlan(plan)
    ensures SafePlan(plan, files)
  {
    forall i, j, k | 0 <= i < |plan| && 0 <= j < |plan[i]| && 0 <= k < |plan[i][j]|
      ensures SafeArg(plan[i][j][k], files)
    {
      PlainArgIsSafe(plan[i][j][k], files);
    }
  }

  lemma VerbsArePlain()
    ensures IsPlainWord("install") && IsPlainWord("uninstall") && IsPlainWord("add")
    ensures IsPlainWord("upgrade") && IsPlainWord("update") && IsPlainWord("--yes")
  {
  }

  lemma ProgramsArePlain()
    ensures IsPlainWord("npm") && IsPlainWord("i") && IsPlainWord("-g") && IsPlainWord("true")
    ensures IsPlainWord("bash") && IsPlainWord("-c")
  {
  }

  lemma ToolNamesArePlain()
    ensures IsPlainWord("claude") && IsPlainWord("codex") && IsPlainWord("gemini")
    ensures IsPlainWord("opencode") && IsPlainWord("openclaw") && IsPlainWord("hermes")
  {
  }

  lemma ScopedPackagesArePlain()
    ensures IsPlainWord("@anthropic-ai/claude-code")
    ensures IsPlainWord("@google/gemini-cli")
  {
  }

  lemma PackagesArePlain(tool: string)
    requires NpmPackageFor(tool).Some?
    ensures IsPlainWord(NpmPackageFor(tool).value) && IsPlainWord(NpmPackageFor(tool).value + "@latest")
  {
    ScopedPackagesArePlain();
    ToolNamesArePlain();
    assert IsPlainWord("@openai/codex") && IsPlainWord("opencode-ai");
    LatestIsPlain(NpmPackageFor(tool).value);
  }

  lemma LatestIsPlain(pkg: string)
    requires IsPlainWord(pkg)
    ensures IsPlainWord(pkg + "@latest")
  {
    assert AllLiteral("@latest");
  }

  lemma ScriptIsUnquoted(url: string)
    requires '\'' !in url
    ensures ArePlain(InstallerScript(url))
  {
    ProgramsArePlain();
    assert '\'' !in SCRIPT_HEAD;
    assert '\'' !in " -o $tmp && bash $tmp; ";
    assert '\'' !in "status=$?; rm -f $tmp; exit $status";
    NotInConcat(" -o $tmp && bash $tmp; ", "status=$?; rm -f $tmp; exit $status", '\'');
    NotInConcat(SCRIPT_HEAD, url, '\'');
    NotInConcat(SCRIPT_HEAD + url, SCRIPT_TAIL, '\'');
  }

  lemma NotInConcat(a: string, b: string, c: char)
    requires c !in a && c !in b
    ensures c !in a + b
  {
  }

  lemma NpmInstallIsPlain(tool: string)
    requires NpmInstallCommandFor(tool).Some?
    ensures ArePlain(NpmInstallCommandFor(tool).value)
  {
    ProgramsArePlain();
    PackagesArePlain(tool);
  }

  lemma OfficialArgsArePlain(tool: string)
    requires OfficialUpdateArgs(tool).Some?
    ensures ArePlain(OfficialUpdateArgs(tool).value)
  {
    VerbsArePlain();
  }

  lemma HermesUrlIsUnquoted()
    ensures '\'' !in HERMES_URL
  {
    assert '\'' !in "https://raw.githubusercontent.com";
    assert '\'' !in "/NousResearch/hermes-agent";
    assert '\'' !in "/main/scripts/install.sh";
    NotInConcat("/NousResearch/hermes-agent", "/main/scripts/install.sh", '\'');
    NotInConcat("https://raw.githubusercontent.com", "/NousResearch/hermes-agent" + "/main/scripts/install.sh", '\'');
  }

  lemma InstallersArePlain()
    ensures ArePlain(CLAUDE_INSTALLER) && ArePlain(OPENCODE_INSTALLER)
    ensures ArePlain(HERMES_INSTALLER)
  {
    ScriptIsUnquoted("https://claude.ai/install.sh");
    ScriptIsUnquoted("https://opencode.ai/install");
    HermesUrlIsUnquoted();
    ScriptIsUnquoted(HERMES_URL);
  }

  lemma StaticPlansArePlain(tool: string)
    ensures StaticUpdate(tool).Some? ==> IsPlainPlan(StaticUpdate(tool).value)
    ensures InstallPlan(tool).Some? ==> IsPlainPlan(InstallPlan(tool).value)
  {
    ToolNamesArePlain();
    VerbsArePlain();
    InstallersArePlain();
    if NpmInstallCommandFor(tool).Some? { NpmInstallIsPlain(tool); }
    if OfficialUpdateArgs(tool).Some? { OfficialArgsArePlain(tool); }
  }

  /** Commands that name no path are always safe. */
  lemma StaticPlansAreSafe(tool: string, files: Files)
    ensures StaticUpdate(tool).Some? ==> SafePlan(StaticUpdate(tool).value, files)
    ensures InstallPlan(tool).Some? ==> SafePlan(InstallPlan(tool).value, files)
  {
    StaticPlansArePlain(tool);
    if StaticUpdate(tool).Some? { PlainPlanIsSafe(StaticUpdate(tool).value, files); }
    if InstallPlan(tool).Some? { PlainPlanIsSafe(InstallPlan(tool).value, files); }
  }

  // ---------- anchored commands ----------

  /** `q` names a file directly in the directory `dir`. */
  predicate FileIn(q: string, dir: string) {
    StartsWith(q, dir + "/") && '/' !in q[|dir| + 1..]
  }

  /** The program a generated command may start: the installation itself or a file beside it. */
  predicate Anchored(program: string, binPath: string) {
    program == binPath || (ParentDir(binPath) != "" && FileIn(program, ParentDir(binPath)))
  }

  /** Without a backslash the textual parent is the directory the path lies in. */
  lemma ParentDirIsDirectory(p: string)
    requires '\\' !in p && ParentDir(p) != ""
    ensures FileIn(p, ParentDir(p))
  {
    var i := AfterLastSeparator(p);
    assert p[i - 1] in p;
    assert p[..i] == ParentDir(p) + "/";
  }

  lemma SiblingIsBeside(binPath: string, exe: string)
    requires '/' !in exe && SiblingBin(binPath, exe).Some?
    ensures Anchored(SiblingBin(binPath, exe).value, binPath)
  {
    var dir := ParentDir(binPath);
    assert (dir + "/" + exe)[..|dir| + 1] == dir + "/";
    assert (dir + "/" + exe)[|dir| + 1..] == exe;
  }

  lemma AnchoredIsAbsolute(program: string, binPath: string)
    requires binPath != "" && binPath[0] == '/' && Anchored(program, binPath)
    ensures program != "" && program[0] == '/'
  {
    if program != binPath {
      assert ParentDir(binPath)[0] == binPath[0];
      assert program[0] == program[..|ParentDir(binPath)| + 1][0];
    }
  }

  /** For an absolute path without a backslash, anchored means absolute and in the same directory. */
  lemma AnchoredMeansSameDirectory(program: string, binPath: string)
    requires binPath != "" && binPath[0] == '/' && '\\' !in binPath
    requires Anchored(program, binPath)
    ensures program != "" && program[0] == '/'
    ensures program == binPath || (FileIn(program, ParentDir(binPath)) && FileIn(binPath, ParentDir(binPath)))
  {
    AnchoredIsAbsolute(program, binPath);
    if program != binPath {
      ParentDirIsDirectory(binPath);
    }
  }

  predicate AnchoredCommand(c: Args, binPath: string) {
    c == [Bare("true")] || (c != [] && c[0].Path? && Anchored(c[0].path, binPath))
  }

  predicate AnchoredPlan(plan: Plan, binPath: string) {
    forall i, j | 0 <= i < |plan| && 0 <= j < |plan[i]| :: AnchoredCommand(plan[i][j], binPath)
  }

  lemma ExecutablesHaveNoSlash()
    ensures '/' !in "brew" && '/' !in "volta" && '/' !in "bun" && '/' !in "npm"
  {
  }

  lemma BesideIsAnchored(binPath: string, exe: string, args: Args)
    requires '/' !in exe
    ensures Beside(binPath, exe, args).Some? ==> AnchoredCommand(Beside(binPath, exe, args).value, binPath)
  {
    if ParentDir(binPath) != "" {
      SiblingIsBeside(binPath, exe);
    }
  }

  lemma PackageManagerIsAnchored(tool: string, binPath: string, realTarget: string)
    ensures var c := PackageManagerCommand(tool, binPath, realTarget);
            c.Some? ==> AnchoredCommand(c.value, binPath)
  {
    ExecutablesHaveNoSlash();
    match BrewFormulaFromPath(realTarget)
    case Some(formula) => BesideIsAnchored(binPath, "brew", [Bare("upgrade"), Bare(formula)]);
    case None =>
      if NpmPackageFor(tool).Some? {
        var pkg := NpmPackageFor(tool).value;
        BesideIsAnchored(binPath, "volta", [Bare("install"), Bare(pkg)]);
        BesideIsAnchored(binPath, "bun", [Bare("add"), Bare("-g"), Bare(pkg + "@latest")]);
        BesideIsAnchored(binPath, "npm", [Bare("i"), Bare("-g"), Bare(pkg + "@latest")]);
      }
  }

  /** For every tool, source and path, every command of an anchored or repair plan is anchored. */
  lemma PlansAreAnchored(tool: string, binPath: string, realTarget: string)
    ensures var plan := AnchoredCommandFromPaths(tool, binPath, realTarget);
            plan.Some? ==> AnchoredPlan(plan.value, binPath)
    ensures var plan := CodexRepairCommand(binPath, realTarget);
            plan.Some? ==> AnchoredPlan(plan.value, binPath)
  {
    PackageManagerIsAnchored(tool, binPath, realTarget);
    RepairIsAnchored(binPath, realTarget);
  }

  lemma RepairIsAnchored(binPath: string, realTarget: string)
    ensures var plan := CodexRepairCommand(binPath, realTarget);
            plan.Some? ==> AnchoredPlan(plan.value, binPath)
  {
    ExecutablesHaveNoSlash();
    if SiblingBin(binPath, "npm").Some? {
      SiblingIsBeside(binPath, "npm");
    }
  }
}
