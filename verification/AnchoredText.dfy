/**
 The text of anchored update and repair commands, read by the shell: what it starts, and
 exactly when it means the plan it was printed from.
 */
module AnchoredText {
  import opened Text
  import opened PosixShell
  import opened Quoting
  import opened Installations
  import opened ToolCommands

  // ---------- paths that are enough ----------

  /**
   The paths the source's documentation assumes: light quoting protects blanks only, so
   the path, its directory and a formula name are free of other special characters.
   */
  predicate PathsSafe(binPath: string, realTarget: string) {
    && IsPlainPath(binPath)
    && (ParentDir(binPath) != "" ==> IsPlainPath(ParentDir(binPath)))
    && (BrewFormulaFromPath(realTarget).Some? ==> IsPlainWord(BrewFormulaFromPath(realTarget).value))
  }

  lemma SiblingIsPlain(binPath: string, exe: string)
    requires IsPlainPath(ParentDir(binPath)) && AllLiteral(exe)
    ensures SiblingBin(binPath, exe).Some? ==> IsPlainPath(SiblingBin(binPath, exe).value)
  {
    var dir := ParentDir(binPath);
    if ' ' in dir {
      assert ' ' in dir + "/" + exe;
    } else if dir != "" {
      assert (dir + "/" + exe)[0] == dir[0];
      assert AllLiteral("/");
    }
  }

  lemma BesideIsPlain(binPath: string, exe: string, args: Args)
    requires ParentDir(binPath) != "" ==> IsPlainPath(ParentDir(binPath))
    requires AllLiteral(exe) && ArePlain(args)
    ensures Beside(binPath, exe, args).Some? ==> ArePlain(Beside(binPath, exe, args).value)
  {
    if ParentDir(binPath) != "" {
      SiblingIsPlain(binPath, exe);
    }
  }

  lemma ExecutablesAreLiteral()
    ensures AllLiteral("brew") && AllLiteral("volta") && AllLiteral("bun") && AllLiteral("npm")
  {
  }

  lemma PackageManagerIsPlain(tool: string, binPath: string, realTarget: string)
    requires PathsSafe(binPath, realTarget)
    ensures var c := PackageManagerCommand(tool, binPath, realTarget);
            c.Some? ==> ArePlain(c.value)
  {
    ExecutablesAreLiteral();
    VerbsArePlain();
    ProgramsArePlain();
    match BrewFormulaFromPath(realTarget)
    case Some(formula) => BesideIsPlain(binPath, "brew", [Bare("upgrade"), Bare(formula)]);
    case None =>
      if NpmPackageFor(tool).Some? {
        var pkg := NpmPackageFor(tool).value;
        PackagesArePlain(tool);
        BesideIsPlain(binPath, "volta", [Bare("install"), Bare(pkg)]);
        BesideIsPlain(binPath, "bun", [Bare("add"), Bare("-g"), Bare(pkg + "@latest")]);
        BesideIsPlain(binPath, "npm", [Bare("i"), Bare("-g"), Bare(pkg + "@latest")]);
      }
  }

  lemma RepairIsPlain(binPath: string, realTarget: string)
    requires PathsSafe(binPath, realTarget)
    ensures var plan := CodexRepairCommand(binPath, realTarget); plan.Some? ==> IsPlainPlan(plan.value)
  {
    ExecutablesAreLiteral();
    if CodexRepairCommand(binPath, realTarget).Some? {
      var npm := SiblingBin(binPath, "npm").value;
      SiblingIsPlain(binPath, "npm");
      NpmArgsArePlain(npm);
      var plan := CodexRepairCommand(binPath, realTarget).value;
      assert ArePlainAlternatives(plan[0]) && ArePlainAlternatives(plan[1]);
    }
  }

  lemma NpmArgsArePlain(npm: string)
    requires IsPlainPath(npm)
    ensures ArePlain([Path(npm), Bare("uninstall"), Bare("-g"), Bare("@openai/codex")])
    ensures ArePlain([Path(npm), Bare("i"), Bare("-g"), Bare("@openai/codex@latest")])
    ensures ArePlain([Bare("true")])
  {
    VerbsArePlain();
    ProgramsArePlain();
    PackagesArePlain("codex");
  }

  lemma AnchoredIsPlain(tool: string, binPath: string, realTarget: string)
    requires PathsSafe(binPath, realTarget)
    ensures var plan := AnchoredCommandFromPaths(tool, binPath, realTarget); plan.Some? ==> IsPlainPlan(plan.value)
  {
    PackageManagerIsPlain(tool, binPath, realTarget);
    OfficialIsPlain(tool, binPath);
    var plan := AnchoredCommandFromPaths(tool, binPath, realTarget);
    if plan.Some? {
      assert ArePlainAlternatives(plan.value[0]);
    }
  }

  lemma OfficialIsPlain(tool: string, binPath: string)
    requires IsPlainPath(binPath)
    ensures AnchoredOfficialUpdate(tool, binPath).Some? ==> ArePlain(AnchoredOfficialUpdate(tool, binPath).value)
  {
    if OfficialUpdateArgs(tool).Some? {
      OfficialArgsArePlain(tool);
    }
  }

  predicate StartsOnly(lists: seq<OrList>, binPath: string) {
    forall i, j | 0 <= i < |lists| && 0 <= j < |lists[i]| ::
      lists[i][j] == ["true"] || (lists[i][j] != [] && Anchored(lists[i][j][0], binPath))
  }

  lemma AnchoredPlanStartsOnly(plan: Plan, binPath: string)
    requires AnchoredPlan(plan, binPath)
    ensures StartsOnly(OrLists(plan), binPath)
  {
    var lists := OrLists(plan);
    forall i, j | 0 <= i < |lists| && 0 <= j < |lists[i]|
      ensures lists[i][j] == ["true"] || (lists[i][j] != [] && Anchored(lists[i][j][0], binPath))
    {
      assert AnchoredCommand(plan[i][j], binPath);
      assert lists[i][j] == ArgWords(plan[i][j]);
    }
  }

  lemma ReadsBack(plan: Plan, files: Files)
    requires SafePlan(plan, files)
    ensures ParseScript(PlanText(plan), files) == Some(OrLists(plan))
  {
    PlanTextMeans(plan, files);
    ScriptMeans([PlanText(plan)], [OrLists(plan)], files);
    assert Flatten([OrLists(plan)]) == OrLists(plan);
  }

  // ---------- exactly the texts that mean their plan ----------

  /** The shell reads the text as the plan. */
  predicate IsReadBack(plan: Plan, files: Files) {
    ParseScript(PlanText(plan), files) == Some(OrLists(plan))
  }

  /** No live word of the text brings in an argument that is printed without quotes and needs them. */
  predicate ArgHasNoStray(a: Arg, text: string, files: Files) {
    match a
    case Path(p) => ' ' in p || HasNoStray(text, p, files)
    case Bare(w) => HasNoStray(text, w, files)
    case Script(_) => true
  }

  predicate HasNoStrayName(plan: Plan, files: Files) {
    forall i, j, k | 0 <= i < |plan| && 0 <= j < |plan[i]| && 0 <= k < |plan[i][j]| ::
      ArgHasNoStray(plan[i][j][k], PlanText(plan), files)
  }

  /** A program given by an absolute path, and a word that is no path behind it. */
  predicate StartsAtPath(c: Args) {
    && |c| >= 2 && c[0].Path? && c[0].path != "" && c[0].path[0] == '/'
    && c[1].Bare? && c[1].text != "" && c[1].text[0] != '/'
  }

  predicate TailIsPlain(c: Args) {
    forall k | 1 <= k < |c| :: IsPlainArg(c[k])
  }

  predicate IsBrewUpgrade(c: Args) {
    StartsAtPath(c) && |c| == 3 && c[1] == Bare("upgrade") && c[2].Bare? && c[2].text != ""
  }

  lemma SafeParts(c: Args, files: Files)
    requires c != [] && SafeArg(c[0], files) && TailIsPlain(c)
    ensures SafeArgs(c, files)
  {
    forall k | 1 <= k < |c| ensures SafeArg(c[k], files) {
      PlainArgIsSafe(c[k], files);
    }
  }

  lemma CommandStarts(c: Args) returns (more: string)
    requires |c| >= 2
    ensures CommandText(c) == ArgText(c[0]) + (" " + more)
  {
    more := Join(ArgTexts(c)[1..], " ");
    ConcatAssociates(ArgText(c[0]), " ", more);
  }

  lemma PlanStarts(plan: Plan) returns (more: string)
    requires plan != [] && plan[0] != [] && |plan[0][0]| >= 2
    ensures PlanText(plan) == ArgText(plan[0][0][0]) + (" " + more)
  {
    var first := ArgText(plan[0][0][0]);
    more := CommandStarts(plan[0][0]);
    if |plan[0]| > 1 {
      var others := " || " + AlternativesText(plan[0][1..]);
      AppendMore(first, more, others);
      more := more + others;
    }
    if |plan| > 1 {
      var others := "; " + PlanText(plan[1..]);
      AppendMore(first, more, others);
      more := more + others;
    }
  }

  lemma AppendMore(first: string, more: string, others: string)
    ensures first + (" " + more) + others == first + (" " + (more + others))
  {
    ConcatAssociates(first, " " + more, others);
    ConcatAssociates(" ", more, others);
  }

  /** The words of a text that is read back are the words of its plan. */
  lemma WordsReadBack(plan: Plan, files: Files) returns (ts: seq<Token>)
    requires IsReadBack(plan, files)
    ensures Lex(PlanText(plan), files) == Some(ts)
    ensures TokenWords(ts) == AllWords(OrLists(plan))
  {
    ts := Lex(PlanText(plan), files).value;
    ParseKeepsWords(ts, [], []);
    NothingBefore(TokenWords(ts));
  }

  lemma FirstOfAll(plan: Plan)
    requires plan != [] && plan[0] != [] && |plan[0][0]| >= 2
    ensures var words := AllWords(OrLists(plan));
            |words| >= 2 && words[0] == ArgWord(plan[0][0][0]) && words[1] == ArgWord(plan[0][0][1])
  {
    assert OrLists(plan)[0][0] == ArgWords(plan[0][0]);
  }

  /** The first path of a text that is read back survived the light quoting. */
  lemma FirstPathSurvives(plan: Plan, files: Files)
    requires IsReadBack(plan, files) && IsRooted(PlanText(plan), files) && HasNoStrayName(plan, files)
    requires plan != [] && plan[0] != [] && StartsAtPath(plan[0][0])
    ensures SafeArg(plan[0][0][0], files)
  {
    var p := plan[0][0][0].path;
    assert ArgHasNoStray(plan[0][0][0], PlanText(plan), files);
    if ' ' !in p {
      var more := PlanStarts(plan);
      var ts := WordsReadBack(plan, files);
      FirstOfAll(plan);
      FirstPathIsKept(p, more, files);
    }
  }

  lemma ListWordsCons(first: Command, list: OrList)
    ensures ListWords([first] + list) == first + ListWords(list)
  {
    assert ([first] + list)[1..] == list;
  }

  lemma AllWordsOfList(list: OrList)
    ensures AllWords([list]) == ListWords(list)
  {
    assert [list][1..] == [];
    NothingAfter(ListWords(list));
  }

  lemma AllWordsOfOne(a: Command)
    ensures AllWords([[a]]) == a
  {
    AllWordsOfList([a]);
    ListWordsCons(a, []);
    NothingAfter([a]);
    NothingAfter(a);
  }

  lemma AllWordsOfTwo(a: Command, b: Command)
    ensures AllWords([[a, b]]) == a + b
  {
    AllWordsOfList([a, b]);
    AllWordsOfOne(b);
    AllWordsOfList([b]);
    ListWordsCons(a, [b]);
    assert [a] + [b] == [a, b];
  }

  lemma ListsOfFallback(plan: Plan)
    requires |plan| == 1 && |plan[0]| == 2
    ensures OrLists(plan) == [[ArgWords(plan[0][0]), ArgWords(plan[0][1])]]
    ensures PlanText(plan) == CommandText(plan[0][0]) + (" || " + CommandText(plan[0][1]))
  {
    var alternatives := plan[0];
    assert alternatives[1..] == [alternatives[1]];
    assert AlternativesText([alternatives[1]]) == CommandText(alternatives[1]);
    assert OrListOf(alternatives) == [ArgWords(alternatives[0]), ArgWords(alternatives[1])];
    assert OrLists(plan) == [OrListOf(alternatives)];
  }

  lemma ListsOfOne(plan: Plan)
    requires |plan| == 1 && |plan[0]| == 1
    ensures OrLists(plan) == [[ArgWords(plan[0][0])]]
    ensures PlanText(plan) == CommandText(plan[0][0])
  {
    assert OrListOf(plan[0]) == [ArgWords(plan[0][0])];
    assert OrLists(plan) == [OrListOf(plan[0])];
  }

  lemma SameRest<T>(a: seq<T>, b: seq<T>, c: seq<T>)
    requires a + b == a + c
    ensures b == c
  {
    assert b == (a + b)[|a|..] && c == (a + c)[|a|..];
  }

  lemma LexFallback(u: Args, text: string, files: Files)
    requires SafeArgs(u, files)
    ensures Lex(CommandText(u) + (" || " + text), files) == Prepend(WordTokens(ArgWords(u)) + [OrIf], Lex(text, files))
  {
    LexArgs(u, " || " + text, files);
    LexOr(text, files);
    PrependTwice(WordTokens(ArgWords(u)), [OrIf], Lex(text, files));
  }

  lemma WordsBehind(words: Command, ts: seq<Token>)
    ensures TokenWords(WordTokens(words) + [OrIf] + ts) == words + TokenWords(ts)
  {
    ConcatAssociates(WordTokens(words), [OrIf], ts);
    WordsOfWords(words, [OrIf] + ts);
    assert ([OrIf] + ts)[1..] == ts;
    NothingBefore(TokenWords(ts));
  }

  /** The tokens of the fallback in a text that is read back. */
  lemma FallbackRead(plan: Plan, files: Files) returns (rest: seq<Token>)
    requires IsReadBack(plan, files)
    requires |plan| == 1 && |plan[0]| == 2 && SafeArgs(plan[0][0], files)
    ensures Lex(CommandText(plan[0][1]), files) == Some(rest) && TokenWords(rest) == ArgWords(plan[0][1])
  {
    var u, f := plan[0][0], plan[0][1];
    ListsOfFallback(plan);
    LexFallback(u, CommandText(f), files);
    var ts := WordsReadBack(plan, files);
    rest := Lex(CommandText(f), files).value;
    WordsBehind(ArgWords(u), rest);
    AllWordsOfTwo(ArgWords(u), ArgWords(f));
    SameRest(ArgWords(u), TokenWords(rest), ArgWords(f));
  }

  /** Live words of the end of a text are live words of the text. */
  lemma LiveBehind(a: string, text: string, files: Files)
    requires Lex(a, files).Some?
    ensures forall raw | raw in LiveWords(text) :: raw in LiveWords(a + (" " + text))
  {
    LexAppend(a, " " + text, files);
    assert (" " + text)[1..] == text;
    assert LiveWords(" " + text) == LiveWords(text);
  }

  lemma LiveInFallback(plan: Plan, files: Files)
    requires |plan| == 1 && |plan[0]| == 2 && SafeArgs(plan[0][0], files)
    ensures forall raw | raw in LiveWords(CommandText(plan[0][1])) :: raw in LiveWords(PlanText(plan))
  {
    var u, text := CommandText(plan[0][0]), CommandText(plan[0][1]);
    ListsOfFallback(plan);
    FallbackStarts(plan[0][0], " ||", files);
    LiveBehind(u + " ||", text, files);
    assert u + " ||" + (" " + text) == u + (" || " + text);
  }

  lemma FallbackStarts(u: Args, or: string, files: Files)
    requires SafeArgs(u, files) && or == " ||"
    ensures Lex(CommandText(u) + or, files).Some?
  {
    OrOnly(files);
    LexArgs(u, or, files);
  }

  lemma OrOnly(files: Files)
    ensures Lex(" ||", files) == Some([OrIf])
  {
    var bars := "||";
    LexBlank(bars, files);
    assert " " + bars == " ||";
    LexNothing(files);
    assert bars[2..] == "" && bars[0] == '|' && bars[1] == '|' && !IsBlank(bars[0]) && bars[0] != '\n';
    PrependToNothing([OrIf]);
  }

  /** So did the path of a fallback behind a command that is safe. */
  lemma FallbackPathSurvives(plan: Plan, files: Files)
    requires IsReadBack(plan, files) && IsRooted(PlanText(plan), files) && HasNoStrayName(plan, files)
    requires |plan| == 1 && |plan[0]| == 2 && SafeArgs(plan[0][0], files) && StartsAtPath(plan[0][1])
    ensures SafeArg(plan[0][1][0], files)
  {
    var f := plan[0][1];
    assert ArgHasNoStray(plan[0][1][0], PlanText(plan), files);
    if ' ' !in f[0].path {
      var more := CommandStarts(f);
      var rest := FallbackRead(plan, files);
      assert ArgWords(f)[0] == f[0].path && ArgWords(f)[1] == f[1].text;
      LiveInFallback(plan, files);
      FirstPathIsKept(f[0].path, more, files);
    }
  }

  lemma LexBrewUpgrade(c: Args, files: Files)
    requires IsBrewUpgrade(c) && SafeArg(c[0], files)
    ensures var formula := c[2].text;
            Lex(CommandText(c), files) == Prepend([Word(c[0].path), Word("upgrade")], Lex(formula, files))
  {
    var formula := c[2].text;
    var texts := ArgTexts(c);
    assert texts[1..][0] == "upgrade" && texts[1..][1..] == [formula];
    assert Join(texts[1..], " ") == "upgrade" + " " + formula;
    VerbsArePlain();
    PlainWordDenotesItself("upgrade", files);
    ArgDenotes(c[0], files);
    PrependNothing(Lex(formula, files));
    LexWordAndMore("upgrade", "upgrade", formula, [], Lex(formula, files), files);
    LexWordAndMore(texts[0], c[0].path, "upgrade" + " " + formula, [Word("upgrade")] + [], Lex(formula, files), files);
    assert [Word(c[0].path)] + ([Word("upgrade")] + []) == [Word(c[0].path), Word("upgrade")];
  }

  lemma LiveInFormula(c: Args, files: Files)
    requires IsBrewUpgrade(c) && SafeArg(c[0], files)
    ensures forall raw | raw in LiveWords(c[2].text) :: raw in LiveWords(CommandText(c))
  {
    var first := ArgText(c[0]);
    VerbsArePlain();
    VerbBehind(c[0], "upgrade", files);
    assert first + " " + "upgrade" == first + " upgrade";
    LiveBehind(first + " upgrade", c[2].text, files);
    UpgradeText(c);
  }

  lemma VerbBehind(a: Arg, verb: string, files: Files)
    requires SafeArg(a, files) && IsPlainWord(verb)
    ensures Lex(ArgText(a) + " " + verb, files).Some?
  {
    PlainWordDenotesItself(verb, files);
    ArgDenotes(a, files);
    LexLastWord(verb, verb, files);
    PrependToNothing([Word(verb)]);
    LexWordAndMore(ArgText(a), ArgWord(a), verb, [Word(verb)], Some([]), files);
  }

  lemma UpgradeText(c: Args)
    requires IsBrewUpgrade(c)
    ensures CommandText(c) == ArgText(c[0]) + " upgrade" + (" " + c[2].text)
  {
    var texts := ArgTexts(c);
    assert texts[1..][0] == "upgrade" && texts[1..][1..] == [c[2].text];
    assert Join(texts[1..], " ") == "upgrade" + " " + c[2].text;
  }

  /** A formula, which is never quoted, needs no quotes in a text that is read back. */
  lemma FormulaIsKept(plan: Plan, files: Files)
    requires IsReadBack(plan, files) && HasNoStrayName(plan, files)
    requires |plan| == 1 && |plan[0]| == 1 && IsBrewUpgrade(plan[0][0]) && SafeArg(plan[0][0][0], files)
    ensures Stays(plan[0][0][2].text, files)
  {
    var c := plan[0][0];
    var formula := c[2].text;
    ListsOfOne(plan);
    LexBrewUpgrade(c, files);
    var ts := WordsReadBack(plan, files);
    var rest := Lex(formula, files).value;
    var head := [c[0].path, "upgrade"];
    TwoWordTokens(c[0].path, "upgrade");
    WordsOfWords(head, rest);
    AllWordsOfOne(ArgWords(c));
    assert ArgWords(c) == head + [formula];
    SameRest(head, TokenWords(rest), [formula]);
    assert ArgHasNoStray(c[2], PlanText(plan), files);
    LiveInFormula(c, files);
    WordIsKept(formula, files);
  }

  lemma TwoWordTokens(a: string, b: string)
    ensures WordTokens([a, b]) == [Word(a), Word(b)]
  {
    assert [a, b][1..] == [b];
    assert [b][1..] == [];
    assert WordTokens([b]) == [Word(b)] + WordTokens([b][1..]);
    assert [Word(a)] + [Word(b)] == [Word(a), Word(b)];
  }

  // ---------- the shapes of anchored plans ----------

  lemma SiblingIsAbsolute(binPath: string, exe: string)
    requires binPath != "" && binPath[0] == '/' && SiblingBin(binPath, exe).Some?
    ensures SiblingBin(binPath, exe).value != "" && SiblingBin(binPath, exe).value[0] == '/'
  {
    assert ParentDir(binPath)[0] == binPath[0];
  }

  lemma OfficialShape(tool: string, binPath: string)
    requires binPath != "" && binPath[0] == '/' && AnchoredOfficialUpdate(tool, binPath).Some?
    ensures StartsAtPath(AnchoredOfficialUpdate(tool, binPath).value)
    ensures TailIsPlain(AnchoredOfficialUpdate(tool, binPath).value)
  {
    OfficialArgsArePlain(tool);
    TailFromArgs(Path(binPath), OfficialUpdateArgs(tool).value);
  }

  lemma TailFromArgs(a: Arg, args: Args)
    requires ArePlain(args)
    ensures TailIsPlain([a] + args)
  {
    assert forall k | 1 <= k < |args| + 1 :: ([a] + args)[k] == args[k - 1];
  }

  lemma BesideShape(binPath: string, exe: string, args: Args)
    requires binPath != "" && binPath[0] == '/' && ArePlain(args)
    requires args[0].Bare? && args[0].text != "" && args[0].text[0] != '/'
    ensures var c := Beside(binPath, exe, args); c.Some? ==> StartsAtPath(c.value) && TailIsPlain(c.value)
  {
    if SiblingBin(binPath, exe).Some? {
      SiblingIsAbsolute(binPath, exe);
      TailFromArgs(Path(SiblingBin(binPath, exe).value), args);
    }
  }

  lemma PackageManagerShape(tool: string, binPath: string, realTarget: string)
    requires binPath != "" && binPath[0] == '/' && PackageManagerCommand(tool, binPath, realTarget).Some?
    ensures var c := PackageManagerCommand(tool, binPath, realTarget).value;
            if BrewFormulaFromPath(realTarget).Some? then IsBrewUpgrade(c) else StartsAtPath(c) && TailIsPlain(c)
  {
    match BrewFormulaFromPath(realTarget)
    case Some(formula) =>
      FormulaIsNotEmpty(Split(realTarget, '/'));
      SiblingIsAbsolute(binPath, "brew");
    case None =>
      var pkg := NpmPackageFor(tool).value;
      VerbsArePlain();
      ProgramsArePlain();
      PackagesArePlain(tool);
      BesideShape(binPath, "volta", [Bare("install"), Bare(pkg)]);
      BesideShape(binPath, "bun", [Bare("add"), Bare("-g"), Bare(pkg + "@latest")]);
      BesideShape(binPath, "npm", [Bare("i"), Bare("-g"), Bare(pkg + "@latest")]);
  }

  lemma {:induction false} FormulaIsNotEmpty(segments: seq<string>)
    ensures FormulaIn(segments).Some? ==> FormulaIn(segments).value != ""
  {
    if segments != [] {
      FormulaIsNotEmpty(segments[1..]);
    }
  }

  /** One command, a brew upgrade, or an update with a fallback. */
  predicate IsUpdateShape(plan: Plan) {
    && |plan| == 1
    && ((|plan[0]| == 1 && StartsAtPath(plan[0][0]) && TailIsPlain(plan[0][0]))
        || (|plan[0]| == 1 && IsBrewUpgrade(plan[0][0]))
        || (|plan[0]| == 2 && StartsAtPath(plan[0][0]) && TailIsPlain(plan[0][0])
            && StartsAtPath(plan[0][1]) && TailIsPlain(plan[0][1])))
  }

  lemma AnchoredShape(tool: string, binPath: string, realTarget: string)
    requires binPath != "" && binPath[0] == '/' && AnchoredCommandFromPaths(tool, binPath, realTarget).Some?
    ensures IsUpdateShape(AnchoredCommandFromPaths(tool, binPath, realTarget).value)
  {
    if AnchoredOfficialUpdate(tool, binPath).Some? {
      OfficialShape(tool, binPath);
    }
    if PackageManagerCommand(tool, binPath, realTarget).Some? {
      PackageManagerShape(tool, binPath, realTarget);
    }
  }

  lemma UpdateIsSafeIfRead(plan: Plan, files: Files)
    requires IsUpdateShape(plan) && IsReadBack(plan, files)
    requires IsRooted(PlanText(plan), files) && HasNoStrayName(plan, files)
    ensures SafePlan(plan, files)
  {
    FirstPathSurvives(plan, files);
    if |plan[0]| == 1 && IsBrewUpgrade(plan[0][0]) {
      FormulaIsKept(plan, files);
      UpgradeIsSafe(plan[0][0], files);
    } else {
      SafeParts(plan[0][0], files);
      if |plan[0]| == 2 {
        FallbackPathSurvives(plan, files);
        SafeParts(plan[0][1], files);
      }
    }
  }

  lemma UpgradeIsSafe(c: Args, files: Files)
    requires IsBrewUpgrade(c) && SafeArg(c[0], files) && Stays(c[2].text, files)
    ensures SafeArgs(c, files)
  {
    VerbsArePlain();
    PlainArgIsSafe(c[1], files);
  }

  predicate IsRepairShape(plan: Plan) {
    && |plan| == 2 && |plan[0]| == 2 && |plan[1]| == 1
    && StartsAtPath(plan[0][0]) && TailIsPlain(plan[0][0]) && plan[0][1] == [Bare("true")]
    && plan[1][0] != [] && plan[1][0][0] == plan[0][0][0] && TailIsPlain(plan[1][0])
  }

  lemma RepairShape(binPath: string, realTarget: string)
    requires binPath != "" && binPath[0] == '/' && CodexRepairCommand(binPath, realTarget).Some?
    ensures IsRepairShape(CodexRepairCommand(binPath, realTarget).value)
  {
    SiblingIsAbsolute(binPath, "npm");
    VerbsArePlain();
    ProgramsArePlain();
    PackagesArePlain("codex");
  }

  lemma RepairIsSafeIfRead(plan: Plan, files: Files)
    requires IsRepairShape(plan) && IsReadBack(plan, files)
    requires IsRooted(PlanText(plan), files) && HasNoStrayName(plan, files)
    ensures SafePlan(plan, files)
  {
    FirstPathSurvives(plan, files);
    SafeParts(plan[0][0], files);
    SafeParts(plan[1][0], files);
    TrueIsSafe(plan[0][1], files);
    assert SafeAlternatives(plan[0], files) && SafeAlternatives(plan[1], files);
  }

  lemma TrueIsSafe(c: Args, files: Files)
    requires c == [Bare("true")]
    ensures SafeArgs(c, files)
  {
    ProgramsArePlain();
    PlainArgIsSafe(c[0], files);
  }

  lemma WithoutPatternNoStray(plan: Plan, files: Files)
    requires !HasPattern(PlanText(plan))
    ensures IsRooted(PlanText(plan), files) && HasNoStrayName(plan, files)
  {
    NoPatternNoLiveWord(PlanText(plan));
  }

  /**
   The documented invariant on the generated text itself. For every tool, every absolute
   path and whatever files there are, the shell reads an anchored update or repair command
   as its plan if and only if each path has a blank or stays without quotes, and a formula
   stays without. This needs nothing more for a text without a pattern. In one with a
   pattern, what absolute patterns match must be absolute, and no pattern may bring in a name
   that needs quotes other than one that is just what that name reads as. What the plan then
   starts is the installation's own path, files in its directory, and `true`, so it never
   depends on PATH.
   */
  lemma AnchoredTextExactly(tool: string, binPath: string, realTarget: string, plan: Plan, files: Files)
    requires binPath != "" && binPath[0] == '/'
    requires AnchoredCommandFromPaths(tool, binPath, realTarget) == Some(plan)
          || CodexRepairCommand(binPath, realTarget) == Some(plan)
    ensures SafePlan(plan, files) ==> ParseScript(PlanText(plan), files) == Some(OrLists(plan))
    ensures !HasPattern(PlanText(plan)) || (IsRooted(PlanText(plan), files) && HasNoStrayName(plan, files)) ==>
              (ParseScript(PlanText(plan), files) == Some(OrLists(plan)) <==> SafePlan(plan, files))
    ensures StartsOnly(OrLists(plan), binPath)
  {
    PlansAreAnchored(tool, binPath, realTarget);
    AnchoredPlanStartsOnly(plan, binPath);
    if SafePlan(plan, files) {
      ReadsBack(plan, files);
    }
    if !HasPattern(PlanText(plan)) {
      WithoutPatternNoStray(plan, files);
    }
    if IsReadBack(plan, files) && IsRooted(PlanText(plan), files) && HasNoStrayName(plan, files) {
      if AnchoredCommandFromPaths(tool, binPath, realTarget) == Some(plan) {
        AnchoredShape(tool, binPath, realTarget);
        UpdateIsSafeIfRead(plan, files);
      } else {
        RepairShape(binPath, realTarget);
        RepairIsSafeIfRead(plan, files);
      }
    }
  }

  /**
   So whenever a path in the plan has no blank and needs quotes, as any with a quote, a
   backslash, a dollar sign or an operator does, and the text has no pattern, the text is
   not read as the plan.
   */
  lemma UnquotedPlanIsMisread(
    tool: string, binPath: string, realTarget: string, plan: Plan, i: nat, j: nat, k: nat, files: Files)
    requires binPath != "" && binPath[0] == '/' && !HasPattern(PlanText(plan))
    requires AnchoredCommandFromPaths(tool, binPath, realTarget) == Some(plan)
          || CodexRepairCommand(binPath, realTarget) == Some(plan)
    requires i < |plan| && j < |plan[i]| && k < |plan[i][j]| && plan[i][j][k].Path?
    requires var p := plan[i][j][k].path; ' ' !in p && NeedsShellQuotes(p) && !HasPattern(p)
    ensures ParseScript(PlanText(plan), files) != Some(OrLists(plan))
  {
    AnchoredTextExactly(tool, binPath, realTarget, plan, files);
    NeverSurvives(plan[i][j][k].path, files);
    assert SafePlan(plan, files) ==> SafeArg(plan[i][j][k], files);
  }

  lemma NeverSurvives(p: string, files: Files)
    requires ' ' !in p && NeedsShellQuotes(p) && !HasPattern(p)
    ensures !SurvivesLightQuoting(p, files)
  {
    RawUnlessQuotes(p);
    NoPatternNoLiveWord(p);
  }

  lemma SemiOnly(files: Files)
    ensures Lex(";", files) == Some([Semi])
  {
    assert ";"[1..] == "";
    LexNothing(files);
    PrependToNothing([Semi]);
  }

  lemma LexBeforeSemi(w: string, field: string, files: Files)
    requires IsRawWord(w) && HasPattern(w) && Fields(w, w, true, files) == [field]
    ensures Lex(w + ";", files) == Some([Word(field), Semi])
  {
    NothingAfter(w);
    ScanRaw(w, "");
    LexScanned(w, w, files);
    OneWordToken(field);
    SemiOnly(files);
    LexAppend(w, ";", files);
    assert [Word(field)] + [Semi] == [Word(field), Semi];
  }

  lemma LexStray(w: string, files: Files)
    requires IsRawWord(w) && HasPattern(w) && files(w) == [w + ";"]
    ensures Lex(w + ";", files) == Some([Word(w + ";"), Semi])
    ensures !IsOneWord(w + ";")
  {
    LexBeforeSemi(w, w + ";", files);
    LexBeforeSemi(w, w, NO_FILES);
  }

  /**
   The condition on names is needed: a formula that ends in `;` is read as itself, and the
   `;` as the end of the command, if the pattern before it matches just the file of that name.
   */
  lemma AStrayNameIsRead(program: string, w: string, files: Files)
    requires program != "" && program[0] == '/' && IsPlainPath(program)
    requires IsRawWord(w) && HasPattern(w) && files(w) == [w + ";"]
    ensures var plan := [[[Path(program), Bare("upgrade"), Bare(w + ";")]]];
            ParseScript(PlanText(plan), files) == Some(OrLists(plan)) && !SafePlan(plan, files)
  {
    var c := [Path(program), Bare("upgrade"), Bare(w + ";")];
    var plan := [[c]];
    PlainArgIsSafe(c[0], files);
    ListsOfOne(plan);
    LexBrewUpgrade(c, files);
    LexStray(w, files);
    StrayIsParsed(program, "upgrade", w + ";");
    assert ArgWords(c) == [program, "upgrade", w + ";"];
    assert [Word(program), Word("upgrade")] + [Word(w + ";"), Semi]
        == [Word(program), Word("upgrade"), Word(w + ";"), Semi];
    assert (w + ";")[|w|] == ';';
    RawUnlessQuotes(w + ";");
    assert SafePlan(plan, files) ==> SafeArg(plan[0][0][2], files);
  }

  lemma StrayIsParsed(a: string, b: string, c: string)
    ensures Parse([Word(a), Word(b), Word(c), Semi]) == Some([[[a, b, c]]])
  {
    var words := [a, b, c];
    assert WordTokens(words) == [Word(a), Word(b), Word(c)] by {
      assert words[1..] == [b, c];
      TwoWordTokens(b, c);
    }
    assert ListTokens([words]) == WordTokens(words);
    ParseList([words], [Semi], []);
    assert [Word(a), Word(b), Word(c)] + [Semi] == [Word(a), Word(b), Word(c), Semi];
    assert Parse([]) == Some([]) && [words] + [] == [words] && [] + [words] == [words];
    assert [[words]] + [] == [[words]];
  }

  lemma HermesPlan(binPath: string, realTarget: string)
    ensures AnchoredCommandFromPaths("hermes", binPath, realTarget) == Some([[[Path(binPath), Bare("update")]]])
  {
    assert [Path(binPath)] + [Bare("update")] == [Path(binPath), Bare("update")];
  }

  lemma HermesText(binPath: string)
    requires ' ' !in binPath
    ensures PlanText([[[Path(binPath), Bare("update")]]]) == binPath + " update"
  {
    var c := [Path(binPath), Bare("update")];
    ListsOfOne([[c]]);
    assert ArgTexts(c) == [binPath, "update"];
    assert [binPath, "update"][1..] == ["update"];
    assert Join(["update"], " ") == "update";
    ConcatAssociates(binPath, " ", "update");
  }

  /**
   A command that fails, for example below `/o'brien`: in a path with one quote and no blank
   the quote stays open to the end of the text, whatever files there are.
   */
  lemma AnchoredTextCanFail(head: string, tail: string, realTarget: string, files: Files)
    requires IsRawWord(head) && ' ' !in tail && '\'' !in tail
    ensures var binPath := head + ("'" + tail);
            var plan := AnchoredCommandFromPaths("hermes", binPath, realTarget);
            plan.Some? && ParseScript(PlanText(plan.value), files).None?
  {
    var binPath := head + ("'" + tail);
    var more := tail + " update";
    HermesPlan(binPath, realTarget);
    HermesText(binPath);
    assert binPath + " update" == head + ("'" + more);
    OpenQuoteIsUnreadable(head, more);
    assert binPath[0] == head[0];
  }

  /** Plain paths are enough for every plan made from them. */
  lemma PlainPathsAreRead(tool: string, binPath: string, realTarget: string, plan: Plan, files: Files)
    requires PathsSafe(binPath, realTarget)
    requires AnchoredCommandFromPaths(tool, binPath, realTarget) == Some(plan)
          || CodexRepairCommand(binPath, realTarget) == Some(plan)
    ensures SafePlan(plan, files) && ParseScript(PlanText(plan), files) == Some(OrLists(plan))
  {
    AnchoredIsPlain(tool, binPath, realTarget);
    RepairIsPlain(binPath, realTarget);
    PlainPlanIsSafe(plan, files);
    ReadsBack(plan, files);
  }
}
