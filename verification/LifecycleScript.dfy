/**
 The script that installs or updates several tools, for bash. The theorems say what
 running the generated text does, for every pattern of command outcomes.
 */
module LifecycleScript {
  import opened Text
  import opened PosixShell
  import opened Quoting
  import opened Installations
  import opened ToolCommands

  datatype Request = Request(tool: string, action: ToolAction)

  function DisplayWords(tool: string): seq<string> {
    if tool == "claude" then ["Claude", "Code"]
    else if tool == "codex" then ["Codex"]
    else if tool == "gemini" then ["Gemini", "CLI"]
    else if tool == "opencode" then ["OpenCode"]
    else if tool == "openclaw" then ["OpenClaw"]
    else if tool == "hermes" then ["Hermes"]
    else ["Unknown"]
  }

  const RULE := "=========="

  function EchoWords(tool: string): Command {
    ["echo", RULE] + DisplayWords(tool) + [RULE]
  }

  function EchoLine(tool: string): string {
    Join(EchoWords(tool), " ")
  }

  /** The lines one request adds; None where the source reports an unsupported tool. */
  function RequestLines(r: Request): Option<seq<string>> {
    match ActionPlan(r.tool, r.action)
    case None => None
    case Some(plan) => Some([EchoLine(r.tool), PlanText(plan), ""])
  }

  function BodyLines(requests: seq<Request>): Option<seq<string>> {
    if requests == [] then Some([])
    else
      match (RequestLines(requests[0]), BodyLines(requests[1..]))
      case (Some(lines), Some(more)) => Some(lines + more)
      case _ => None
  }

  const HEADER := ["set -e", "set -o pipefail"]
  const ERREXIT: Command := ["set", "-e"]
  const PIPEFAIL: Command := ["set", "-o", "pipefail"]

  function Script(requests: seq<Request>): Option<string> {
    match BodyLines(requests)
    case None => None
    case Some(lines) => Some(Join(HEADER + lines, "\n"))
  }

  method BuildToolLifecycleCommand(requests: seq<Request>) returns (script: Option<string>)
    ensures script == Script(requests)
  {
    var lines := HEADER;
    NothingAfter(HEADER);
    for k := 0 to |requests|
      invariant Script(requests) ==
                match BodyLines(requests[k..]) case None => None case Some(more) => Some(Join(lines + more, "\n"))
    {
      assert requests[k..][0] == requests[k] && requests[k..][1..] == requests[k + 1..];
      ghost var before := lines;
      lines := lines + [EchoLine(requests[k].tool)];
      var plan := ActionPlan(requests[k].tool, requests[k].action);
      if plan.None? {
        return None;
      }
      lines := lines + [PlanText(plan.value)];
      lines := lines + [""];
      assert lines == before + RequestLines(requests[k]).value;
      if BodyLines(requests[k + 1..]).Some? {
        ConcatAssociates(before, RequestLines(requests[k]).value, BodyLines(requests[k + 1..]).value);
      }
    }
    NothingAfter(lines);
    return Some(Join(lines, "\n"));
  }

  // ---------- what a run should do ----------

  /** The commands started so far and whether the last thing run succeeded. */
  datatype Verdict = Verdict(trace: seq<Command>, ok: bool)

  /** Alternatives are tried in order until one succeeds; `true` always does. */
  function TryAlternatives(list: OrList, trace: seq<Command>, outcomes: Outcomes): Verdict {
    if list == [] then Verdict(trace, true)
    else if list[0] == ["true"] then Verdict(trace, true)
    else
      var ok := outcomes(trace, list[0]) == 0;
      if ok || |list| == 1 then Verdict(trace + [list[0]], ok)
      else TryAlternatives(list[1..], trace + [list[0]], outcomes)
  }

  /** Steps run in order, up to the first that fails. */
  function RunSteps(lists: seq<OrList>, trace: seq<Command>, outcomes: Outcomes): Verdict {
    if lists == [] then Verdict(trace, true)
    else
      var first := TryAlternatives(lists[0], trace, outcomes);
      if first.ok then RunSteps(lists[1..], first.trace, outcomes) else first
  }

  /** Tools run in order, up to the first that fails. */
  function RunTools(tools: seq<seq<OrList>>, trace: seq<Command>, outcomes: Outcomes): Verdict {
    if tools == [] then Verdict(trace, true)
    else
      var first := RunSteps(tools[0], trace, outcomes);
      if first.ok then RunTools(tools[1..], first.trace, outcomes) else first
  }

  // ---------- what a run does ----------

  /** Commands the shell must start as programs, or `true`. */
  predicate Ordinary(list: OrList) {
    IsOrList(list) && forall i | 0 <= i < |list| :: list[i][0] != "set" && list[i][0] != "echo"
  }

  predicate AllOrdinary(lists: seq<OrList>) {
    forall i | 0 <= i < |lists| :: Ordinary(lists[i])
  }

  /** The shell is under `set -e`, started what the verdict says, and has its outcome. */
  predicate Shows(sh: Shell, v: Verdict) {
    sh.errexit && sh.trace == v.trace && (sh.status == 0 <==> v.ok)
  }

  lemma {:induction false} RunOrListShows(list: OrList, sh: Shell, outcomes: Outcomes)
    requires Ordinary(list) && sh.errexit
    ensures Shows(RunOrList(list, sh, outcomes), TryAlternatives(list, sh.trace, outcomes))
    decreases |list|
  {
    var first := RunCommand(list[0], sh, outcomes);
    if first.status != 0 && |list| > 1 {
      RunOrListShows(list[1..], first, outcomes);
    }
  }

  lemma {:induction false} RunShows(lists: seq<OrList>, sh: Shell, outcomes: Outcomes)
    requires AllOrdinary(lists) && sh.errexit && sh.status == 0
    ensures Shows(Run(lists, sh, outcomes), RunSteps(lists, sh.trace, outcomes))
    decreases |lists|
  {
    if lists != [] {
      RunOrListShows(lists[0], sh, outcomes);
      var next := RunOrList(lists[0], sh, outcomes);
      if next.status == 0 {
        RunShows(lists[1..], next, outcomes);
      }
    }
  }

  lemma {:induction false} RunAppend(a: seq<OrList>, b: seq<OrList>, sh: Shell, outcomes: Outcomes)
    requires sh.errexit && sh.status == 0
    ensures var r := Run(a, sh, outcomes);
            r.errexit && Run(a + b, sh, outcomes) == if r.status == 0 then Run(b, r, outcomes) else r
    decreases |a|
  {
    if a == [] {
      NothingBefore(b);
    } else {
      assert (a + b)[1..] == a[1..] + b;
      var next := RunOrList(a[0], sh, outcomes);
      ErrexitStays(a[0], sh, outcomes);
      if next.status == 0 {
        RunAppend(a[1..], b, next, outcomes);
      }
    }
  }

  lemma {:induction false} ErrexitStays(list: OrList, sh: Shell, outcomes: Outcomes)
    requires sh.errexit
    ensures RunOrList(list, sh, outcomes).errexit
    decreases |list|
  {
    if list != [] {
      ErrexitStays(list[1..], RunCommand(list[0], sh, outcomes), outcomes);
    }
  }

  /** What the lines of a script mean: for each tool its heading, its plan, and a blank line. */
  function BodyMeanings(tools: seq<string>, lists: seq<seq<OrList>>): seq<seq<OrList>>
    requires |tools| == |lists|
  {
    if tools == [] then []
    else [[[EchoWords(tools[0])]]] + ([lists[0]] + ([[]] + BodyMeanings(tools[1..], lists[1..])))
  }

  lemma RunEcho(tool: string, sh: Shell, outcomes: Outcomes)
    ensures RunOrList([EchoWords(tool)], sh, outcomes) == sh.(status := 0)
  {
  }

  lemma FlattenHead(first: seq<OrList>, more: seq<seq<OrList>>)
    ensures Flatten([first] + more) == first + Flatten(more)
  {
    assert ([first] + more)[1..] == more;
  }

  lemma FlattenBody(tools: seq<string>, lists: seq<seq<OrList>>)
    requires |tools| == |lists| && tools != []
    ensures Flatten(BodyMeanings(tools, lists))
         == [[EchoWords(tools[0])]] + (lists[0] + Flatten(BodyMeanings(tools[1..], lists[1..])))
  {
    var more := BodyMeanings(tools[1..], lists[1..]);
    FlattenHead([], more);
    FlattenHead(lists[0], [[]] + more);
    FlattenHead([[EchoWords(tools[0])]], [lists[0]] + ([[]] + more));
    NothingBefore(Flatten(more));
  }

  lemma {:induction false} RunBody(tools: seq<string>, lists: seq<seq<OrList>>, sh: Shell, outcomes: Outcomes)
    requires |tools| == |lists| && (forall i | 0 <= i < |lists| :: AllOrdinary(lists[i]))
    requires sh.errexit && sh.status == 0
    ensures Shows(Run(Flatten(BodyMeanings(tools, lists)), sh, outcomes), RunTools(lists, sh.trace, outcomes))
    decreases |tools|
  {
    if tools != [] {
      var later := Flatten(BodyMeanings(tools[1..], lists[1..]));
      FlattenBody(tools, lists);
      RunEcho(tools[0], sh, outcomes);
      assert ([[EchoWords(tools[0])]] + (lists[0] + later))[1..] == lists[0] + later;
      RunAppend(lists[0], later, sh, outcomes);
      RunShows(lists[0], sh, outcomes);
      var next := Run(lists[0], sh, outcomes);
      if next.status == 0 {
        RunBody(tools[1..], lists[1..], next, outcomes);
      }
    }
  }

  // ---------- the generated text ----------

  function Plans(requests: seq<Request>): Option<seq<Plan>> {
    if requests == [] then Some([])
    else
      match (ActionPlan(requests[0].tool, requests[0].action), Plans(requests[1..]))
      case (Some(plan), Some(more)) => Some([plan] + more)
      case _ => None
  }

  function ToolNames(requests: seq<Request>): seq<string> {
    if requests == [] then [] else [requests[0].tool] + ToolNames(requests[1..])
  }

  function AllOrLists(plans: seq<Plan>): (r: seq<seq<OrList>>)
    ensures |r| == |plans|
  {
    if plans == [] then [] else [OrLists(plans[0])] + AllOrLists(plans[1..])
  }

  lemma ShortNamesArePlain()
    ensures IsPlainWord("Claude") && IsPlainWord("Code") && IsPlainWord("Codex") && IsPlainWord("Gemini")
    ensures IsPlainWord("CLI") && IsPlainWord("Hermes") && IsPlainWord("Unknown")
  {
  }

  lemma LongNamesArePlain()
    ensures IsPlainWord("OpenCode") && IsPlainWord("OpenClaw")
  {
  }

  lemma DisplayWordsArePlain(tool: string)
    ensures forall i | 0 <= i < |DisplayWords(tool)| :: IsPlainWord(DisplayWords(tool)[i])
  {
    ShortNamesArePlain();
    LongNamesArePlain();
  }

  lemma EchoLineMeans(tool: string, files: Files)
    ensures LineMeans(EchoLine(tool), [[EchoWords(tool)]], files)
  {
    DisplayWordsArePlain(tool);
    assert IsPlainWord("echo") && IsPlainWord(RULE);
    PlainLineMeans(EchoWords(tool), files);
  }

  /** Each tool is announced by its own name. */
  function Heading(tool: string): Option<Command> {
    if tool == "claude" then Some(["echo", "==========", "Claude", "Code", "=========="])
    else if tool == "codex" then Some(["echo", "==========", "Codex", "=========="])
    else if tool == "gemini" then Some(["echo", "==========", "Gemini", "CLI", "=========="])
    else if tool == "opencode" then Some(["echo", "==========", "OpenCode", "=========="])
    else if tool == "openclaw" then Some(["echo", "==========", "OpenClaw", "=========="])
    else if tool == "hermes" then Some(["echo", "==========", "Hermes", "=========="])
    else None
  }

  lemma HeadingIsRead(tool: string, files: Files)
    requires Heading(tool).Some?
    ensures LineMeans(EchoLine(tool), [[Heading(tool).value]], files)
  {
    EchoLineMeans(tool, files);
    assert EchoWords(tool) == Heading(tool).value;
  }

  lemma SetWordsArePlain()
    ensures IsPlainWord("set") && IsPlainWord("-e") && IsPlainWord("-o") && IsPlainWord("pipefail")
  {
  }

  lemma HeaderTexts()
    ensures Join(ERREXIT, " ") == "set -e"
    ensures Join(PIPEFAIL, " ") == "set -o pipefail"
  {
    assert PIPEFAIL[1..] == ["-o", "pipefail"];
  }

  lemma HeaderMeans(files: Files)
    ensures LineMeans("set -e", [[ERREXIT]], files) && LineMeans("set -o pipefail", [[PIPEFAIL]], files)
  {
    SetWordsArePlain();
    HeaderTexts();
    PlainLineMeans(ERREXIT, files);
    PlainLineMeans(PIPEFAIL, files);
  }

  lemma PlainLineMeans(words: Command, files: Files)
    requires words != [] && forall i | 0 <= i < |words| :: IsPlainWord(words[i])
    ensures LineMeans(Join(words, " "), [[words]], files)
  {
    forall i | 0 <= i < |words| ensures Denotes(words[i], words[i], files) {
      PlainWordDenotesItself(words[i], files);
    }
    forall rest | rest == "" || rest[0] == '\n'
      ensures Lex(Join(words, " ") + rest, files) == Prepend(LineTokens([[words]]), Lex(rest, files))
    {
      OneCommandTokens(words);
      LexWords(words, words, rest, files);
    }
  }

  lemma OneCommandTokens(words: Command)
    ensures LineTokens([[words]]) == WordTokens(words)
  {
    assert ListTokens([words]) == WordTokens(words);
  }

  lemma BlankLineMeans(files: Files)
    ensures LineMeans("", [], files)
  {
    forall rest | rest == "" || rest[0] == '\n'
      ensures Lex("" + rest, files) == Prepend(LineTokens([]), Lex(rest, files))
    {
      NothingBefore(rest);
      PrependNothing(Lex(rest, files));
    }
  }

  lemma LinesMeanHead(line: string, lists: seq<OrList>, lines: seq<string>, meanings: seq<seq<OrList>>, files: Files)
    requires LineMeans(line, lists, files) && LinesMean(lines, meanings, files)
    ensures LinesMean([line] + lines, [lists] + meanings, files)
  {
  }

  lemma ThreeLinesMean(
    l1: string, m1: seq<OrList>, l2: string, m2: seq<OrList>, l3: string, m3: seq<OrList>,
    lines: seq<string>, meanings: seq<seq<OrList>>, files: Files)
    requires LineMeans(l1, m1, files) && LineMeans(l2, m2, files) && LineMeans(l3, m3, files)
    requires LinesMean(lines, meanings, files)
    ensures LinesMean([l1, l2, l3] + lines, [m1] + ([m2] + ([m3] + meanings)), files)
  {
    LinesMeanHead(l3, m3, lines, meanings, files);
    LinesMeanHead(l2, m2, [l3] + lines, [m3] + meanings, files);
    LinesMeanHead(l1, m1, [l2] + ([l3] + lines), [m2] + ([m3] + meanings), files);
    assert [l1, l2, l3] + lines == [l1] + ([l2] + ([l3] + lines));
  }

  predicate AllSafe(plans: seq<Plan>, files: Files) {
    forall i | 0 <= i < |plans| :: SafePlan(plans[i], files)
  }

  /** The lines for tools with given plans. */
  function PlanLines(tools: seq<string>, plans: seq<Plan>): seq<string>
    requires |tools| == |plans|
  {
    if tools == [] then []
    else [EchoLine(tools[0]), PlanText(plans[0]), ""] + PlanLines(tools[1..], plans[1..])
  }

  lemma {:induction false} BodyLinesArePlanLines(requests: seq<Request>)
    requires Plans(requests).Some?
    ensures |ToolNames(requests)| == |Plans(requests).value|
    ensures BodyLines(requests) == Some(PlanLines(ToolNames(requests), Plans(requests).value))
    decreases |requests|
  {
    if requests != [] {
      BodyLinesArePlanLines(requests[1..]);
    }
  }

  lemma {:induction false} PlanLinesMean(tools: seq<string>, plans: seq<Plan>, files: Files)
    requires |tools| == |plans| && AllSafe(plans, files)
    ensures LinesMean(PlanLines(tools, plans), BodyMeanings(tools, AllOrLists(plans)), files)
    decreases |tools|
  {
    if tools != [] {
      PlanLinesMean(tools[1..], plans[1..], files);
      EchoLineMeans(tools[0], files);
      PlanTextMeans(plans[0], files);
      BlankLineMeans(files);
      ThreeLinesMean(EchoLine(tools[0]), [[EchoWords(tools[0])]], PlanText(plans[0]), OrLists(plans[0]), "", [],
                     PlanLines(tools[1..], plans[1..]), BodyMeanings(tools[1..], AllOrLists(plans[1..])), files);
    }
  }

  /** The lists of a whole script. */
  function WithHeader(body: seq<OrList>): seq<OrList> {
    [[ERREXIT]] + ([[PIPEFAIL]] + body)
  }

  lemma ScriptLinesMean(lines: seq<string>, meanings: seq<seq<OrList>>, files: Files)
    requires LinesMean(lines, meanings, files)
    ensures ParseScript(Join(HEADER + lines, "\n"), files) == Some(WithHeader(Flatten(meanings)))
  {
    HeaderMeans(files);
    var one, two := "set -e", "set -o pipefail";
    LinesMeanHead(two, [[PIPEFAIL]], lines, meanings, files);
    LinesMeanHead(one, [[ERREXIT]], [two] + lines, [[[PIPEFAIL]]] + meanings, files);
    assert HEADER + lines == [one] + ([two] + lines);
    ScriptMeans(HEADER + lines, [[[ERREXIT]]] + ([[[PIPEFAIL]]] + meanings), files);
    FlattenHead([[PIPEFAIL]], meanings);
    FlattenHead([[ERREXIT]], [[[PIPEFAIL]]] + meanings);
  }

  lemma RunHeader(body: seq<OrList>, outcomes: Outcomes)
    ensures Run(WithHeader(body), Shell(false, [], 0), outcomes) == Run(body, Shell(true, [], 0), outcomes)
  {
    var later := [[PIPEFAIL]] + body;
    assert WithHeader(body)[1..] == later && later[1..] == body;
    assert RunOrList([ERREXIT], Shell(false, [], 0), outcomes) == Shell(true, [], 0);
    assert RunOrList([PIPEFAIL], Shell(true, [], 0), outcomes) == Shell(true, [], 0);
  }

  /** The outcome of `bash -c` on the text; None when the text is outside the modelled language. */
  function RunBash(text: string, outcomes: Outcomes, files: Files): Option<Shell> {
    match ParseScript(text, files)
    case None => None
    case Some(lists) => Some(Run(lists, Shell(false, [], 0), outcomes))
  }

  predicate AllToolsOrdinary(tools: seq<seq<OrList>>) {
    forall i | 0 <= i < |tools| :: AllOrdinary(tools[i])
  }

  function PosixScript(tools: seq<string>, plans: seq<Plan>): string
    requires |tools| == |plans|
  {
    Join(HEADER + PlanLines(tools, plans), "\n")
  }

  /**
   For every list of tools whose plans are safe to print, and every choice of outcomes,
   bash starts exactly the commands of the tools up to and including the first that fails,
   in order, and exits with success if and only if every tool succeeded.
   */
  lemma BashRunsToolsInOrder(tools: seq<string>, plans: seq<Plan>, outcomes: Outcomes, files: Files)
    requires |tools| == |plans| && AllSafe(plans, files) && AllToolsOrdinary(AllOrLists(plans))
    ensures RunBash(PosixScript(tools, plans), outcomes, files).Some?
    ensures Shows(RunBash(PosixScript(tools, plans), outcomes, files).value, RunTools(AllOrLists(plans), [], outcomes))
  {
    var meanings := BodyMeanings(tools, AllOrLists(plans));
    PlanLinesMean(tools, plans, files);
    ScriptLinesMean(PlanLines(tools, plans), meanings, files);
    RunHeader(Flatten(meanings), outcomes);
    RunBody(tools, AllOrLists(plans), Shell(true, [], 0), outcomes);
  }

  // ---------- every request the source can make ----------

  /**
   A supported tool whose chosen installation, if any, has an absolute path, and whose line
   the shell reads as its plan: every path in it has a blank or stays without quotes.
   */
  predicate GoodRequest(r: Request, files: Files) {
    && ActionPlan(r.tool, r.action).Some?
    && SafePlan(ActionPlan(r.tool, r.action).value, files)
    && (r.action.Update? && DefaultInstall(r.action.installs).Some? ==>
          var chosen := DefaultInstall(r.action.installs).value;
          chosen.path != "" && chosen.path[0] == '/')
  }

  predicate NotShellWord(word: string) {
    word != "set" && word != "echo"
  }

  lemma StaticFirstWords(tool: string)
    ensures NotShellWord("npm") && NotShellWord("bash") && NotShellWord("hermes")
    ensures PrefersOfficialUpdate(tool) ==> NotShellWord(tool)
    ensures StaticUpdate(tool).Some? ==> AllOrdinary(OrLists(StaticUpdate(tool).value))
    ensures InstallPlan(tool).Some? ==> AllOrdinary(OrLists(InstallPlan(tool).value))
  {
  }

  lemma AnchoredPlansAreOrdinary(plan: Plan, binPath: string, files: Files)
    requires binPath != "" && binPath[0] == '/' && AnchoredPlan(plan, binPath)
    requires SafePlan(plan, files)
    ensures AllOrdinary(OrLists(plan))
  {
    var lists := OrLists(plan);
    forall i, j | 0 <= i < |lists| && 0 <= j < |lists[i]|
      ensures lists[i][j] != [] && lists[i][j][0] != "set" && lists[i][j][0] != "echo"
    {
      assert lists[i][j] == ArgWords(plan[i][j]);
      assert AnchoredCommand(plan[i][j], binPath);
      if plan[i][j] != [Bare("true")] {
        AnchoredIsAbsolute(plan[i][j][0].path, binPath);
      }
    }
  }

  lemma GoodRequestIsSafe(r: Request, files: Files)
    requires GoodRequest(r, files)
    ensures SafePlan(ActionPlan(r.tool, r.action).value, files)
    ensures AllOrdinary(OrLists(ActionPlan(r.tool, r.action).value))
  {
    StaticPlansAreSafe(r.tool, files);
    StaticFirstWords(r.tool);
    if r.action.Update? && InstallsAnchoredCommand(r.tool, r.action.installs).Some? {
      var chosen := DefaultInstall(r.action.installs).value;
      var plan := InstallsAnchoredCommand(r.tool, r.action.installs).value;
      PlansAreAnchored(r.tool, chosen.path, chosen.realPath);
      AnchoredPlansAreOrdinary(plan, chosen.path, files);
    }
  }

  lemma {:induction false} GoodRequestsAreSafe(requests: seq<Request>, files: Files)
    requires forall i | 0 <= i < |requests| :: GoodRequest(requests[i], files)
    ensures Plans(requests).Some? && AllSafe(Plans(requests).value, files)
    ensures AllToolsOrdinary(AllOrLists(Plans(requests).value))
  {
    if requests != [] {
      GoodRequestIsSafe(requests[0], files);
      GoodRequestsAreSafe(requests[1..], files);
      assert Plans(requests).value[1..] == Plans(requests[1..]).value;
    }
  }

  /**
   End to end: for every list of good requests, installs and updates mixed, and every
   pattern of outcomes, the generated text runs under bash as the tools in order, stopping
   at the first that fails.
   */
  lemma GeneratedScriptRunsInOrder(requests: seq<Request>, outcomes: Outcomes, files: Files)
    requires forall i | 0 <= i < |requests| :: GoodRequest(requests[i], files)
    ensures Plans(requests).Some? && Script(requests).Some? && RunBash(Script(requests).value, outcomes, files).Some?
    ensures Shows(RunBash(Script(requests).value, outcomes, files).value,
                  RunTools(AllOrLists(Plans(requests).value), [], outcomes))
  {
    GoodRequestsAreSafe(requests, files);
    BodyLinesArePlanLines(requests);
    BashRunsToolsInOrder(ToolNames(requests), Plans(requests).value, outcomes, files);
  }

  lemma LastStep(list: OrList, trace: seq<Command>, outcomes: Outcomes)
    ensures RunSteps([list], trace, outcomes) == TryAlternatives(list, trace, outcomes)
  {
    var v := TryAlternatives(list, trace, outcomes);
    assert RunSteps([], v.trace, outcomes) == Verdict(v.trace, true);
  }

  lemma TwoAlternatives(first: Command, second: Command, trace: seq<Command>, outcomes: Outcomes)
    requires first != ["true"]
    ensures TryAlternatives([first, second], trace, outcomes)
         == if outcomes(trace, first) == 0 then Verdict(trace + [first], true)
            else TryAlternatives([second], trace + [first], outcomes)
  {
    assert [first, second][1..] == [second];
  }

  /** A fallback is tried if and only if its primary failed, and either can succeed. */
  lemma TwoAlternativesRun(primary: Command, fallback: Command, outcomes: Outcomes)
    requires primary != ["true"] && fallback != ["true"]
    ensures var v := RunTools([[[primary, fallback]]], [], outcomes);
            && v.trace == (if outcomes([], primary) == 0 then [primary] else [primary, fallback])
            && (v.ok <==> outcomes([], primary) == 0 || outcomes([primary], fallback) == 0)
  {
    LastStep([primary, fallback], [], outcomes);
    TwoAlternatives(primary, fallback, [], outcomes);
    var v := RunSteps([[primary, fallback]], [], outcomes);
    assert [[[primary, fallback]]][1..] == [];
    assert [] + [primary] == [primary] && [primary] + [fallback] == [primary, fallback];
    assert RunTools([], v.trace, outcomes) == Verdict(v.trace, true);
  }

  /** No generated alternative of two is the builtin `true`. */
  lemma AlternativesAreLong(tool: string, action: ToolAction)
    ensures var plan := ActionPlan(tool, action);
            plan.Some? && |plan.value| == 1 && |plan.value[0]| == 2 ==>
              |plan.value[0][0]| >= 2 && |plan.value[0][1]| >= 2
  {
  }

  /**
   In the bash run of any generated update or install line that has a fallback, the fallback
   runs if and only if the primary failed, and the script succeeds if and only if either does.
   */
  lemma FallbackRunsIffPrimaryFails(r: Request, outcomes: Outcomes, files: Files)
    requires GoodRequest(r, files)
    requires var plan := ActionPlan(r.tool, r.action).value; |plan| == 1 && |plan[0]| == 2
    ensures Script([r]).Some? && RunBash(Script([r]).value, outcomes, files).Some?
    ensures var plan := ActionPlan(r.tool, r.action).value;
            var primary, fallback := ArgWords(plan[0][0]), ArgWords(plan[0][1]);
            var run := RunBash(Script([r]).value, outcomes, files).value;
            && run.trace == (if outcomes([], primary) == 0 then [primary] else [primary, fallback])
            && (run.status == 0 <==> outcomes([], primary) == 0 || outcomes([primary], fallback) == 0)
  {
    var plan := ActionPlan(r.tool, r.action).value;
    var primary, fallback := ArgWords(plan[0][0]), ArgWords(plan[0][1]);
    GeneratedScriptRunsInOrder([r], outcomes, files);
    AlternativesAreLong(r.tool, r.action);
    OnePlan(r);
    assert OrLists(plan) == [[primary, fallback]] by {
      assert OrListOf(plan[0]) == [primary, fallback];
    }
    TwoAlternativesRun(primary, fallback, outcomes);
  }

  lemma OnePlan(r: Request)
    requires ActionPlan(r.tool, r.action).Some?
    ensures Plans([r]) == Some([ActionPlan(r.tool, r.action).value])
    ensures AllOrLists(Plans([r]).value) == [OrLists(ActionPlan(r.tool, r.action).value)]
  {
    assert [r][1..] == [];
    assert Plans([]) == Some([]);
    var plan := ActionPlan(r.tool, r.action).value;
    assert [plan] + [] == [plan];
    assert AllOrLists([plan]) == [OrLists(plan)];
  }

  /** Such lines exist: the fixed updates of these tools fall back to npm. */
  lemma StaticUpdatesFallBack(tool: string)
    requires tool == "claude" || tool == "opencode" || tool == "openclaw"
    ensures var plan := ActionPlan(tool, Update([]));
            && plan.Some? && |plan.value| == 1 && |plan.value[0]| == 2
            && plan.value[0][0] == [Bare(tool)] + OfficialUpdateArgs(tool).value
            && NpmInstallCommandFor(tool) == Some(plan.value[0][1])
  {
  }

  lemma RepairSteps(uninstall: Command, install: Command, trace: seq<Command>, outcomes: Outcomes)
    requires uninstall != ["true"] && install != ["true"]
    ensures var v := RunSteps([[uninstall, ["true"]], [install]], trace, outcomes);
            && v.trace == trace + [uninstall] + [install]
            && (v.ok <==> outcomes(trace + [uninstall], install) == 0)
  {
    var lists := [[uninstall, ["true"]], [install]];
    assert lists[1..] == [[install]];
    TwoAlternatives(uninstall, ["true"], trace, outcomes);
    LastStep([install], trace + [uninstall], outcomes);
  }

  /** The codex repair always reinstalls after the uninstall, and only the reinstall decides success. */
  lemma RepairAlwaysReinstalls(binPath: string, realTarget: string, trace: seq<Command>, outcomes: Outcomes)
    requires CodexRepairCommand(binPath, realTarget).Some?
    ensures var npm := SiblingBin(binPath, "npm").value;
            var uninstall := [npm, "uninstall", "-g", "@openai/codex"];
            var install := [npm, "i", "-g", "@openai/codex@latest"];
            var v := RunSteps(OrLists(CodexRepairCommand(binPath, realTarget).value), trace, outcomes);
            && v.trace == trace + [uninstall] + [install]
            && (v.ok <==> outcomes(trace + [uninstall], install) == 0)
  {
    var npm := SiblingBin(binPath, "npm").value;
    var uninstall, install := [npm, "uninstall", "-g", "@openai/codex"], [npm, "i", "-g", "@openai/codex@latest"];
    var plan := CodexRepairCommand(binPath, realTarget).value;
    RepairLists(npm, plan);
    RepairSteps(uninstall, install, trace, outcomes);
  }

  lemma RepairLists(npm: string, plan: Plan)
    requires plan == [[[Path(npm), Bare("uninstall"), Bare("-g"), Bare("@openai/codex")], [Bare("true")]],
                      [[Path(npm), Bare("i"), Bare("-g"), Bare("@openai/codex@latest")]]]
    ensures OrLists(plan) ==
            [[[npm, "uninstall", "-g", "@openai/codex"], ["true"]], [[npm, "i", "-g", "@openai/codex@latest"]]]
  {
    assert ArgWords(plan[0][0]) == [npm, "uninstall", "-g", "@openai/codex"];
    assert ArgWords(plan[0][1]) == ["true"];
    assert ArgWords(plan[1][0]) == [npm, "i", "-g", "@openai/codex@latest"];
    assert OrListOf(plan[0]) == [ArgWords(plan[0][0]), ArgWords(plan[0][1])];
    assert OrListOf(plan[1]) == [ArgWords(plan[1][0])];
  }
}
