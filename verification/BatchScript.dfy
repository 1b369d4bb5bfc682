/**
 The Windows counterpart of the lifecycle script, and a reading of batch files: percent
 expansion, tokens, `||`, and the difference between `call`, which returns, and a bare
 batch file, which does not.
 */
module BatchScript {
  import opened Text
  import opened PosixShell
  import opened Quoting
  import opened ToolCommands
  import opened LifecycleScript

  // ---------- the generated lines ----------

  function BatchArgText(a: Arg): string {
    match a
    case Path(p) => WinQuotePathForBatch(p)
    case Bare(w) => w
    case Script(body) => WinDoubleQuote(body)
  }

  /** A command in a line, with or without `call` before it. */
  datatype Invocation = Invocation(called: bool, args: Args)

  /** The whole line has a `call` in front, and a fallback its own unless it is no batch file. */
  type Line = seq<Invocation>

  function ArgTextsOf(c: Args): (r: seq<string>)
    ensures |r| == |c|
  {
    seq(|c|, i requires 0 <= i < |c| => BatchArgText(c[i]))
  }

  function Called(called: bool, words: seq<string>): seq<string> {
    if called then ["call"] + words else words
  }

  function CallText(v: Invocation): string {
    Join(Called(v.called, ArgTextsOf(v.args)), " ")
  }

  function CallTextsOf(line: Line): (r: seq<string>)
    ensures |r| == |line|
  {
    seq(|line|, i requires 0 <= i < |line| => CallText(line[i]))
  }

  function CallLine(line: Line): string {
    Join(CallTextsOf(line), " || ")
  }

  /** The commands of a line as alternatives. */
  function AlternativesOf(line: Line): (r: OrList)
    ensures |r| == |line|
  {
    seq(|line|, i requires 0 <= i < |line| => ArgWords(line[i].args))
  }

  const EXIT_LINE := "if errorlevel 1 exit /b %errorlevel%"

  datatype BatchRequest = BatchRequest(tool: string, line: Line)

  function BatchLines(requests: seq<BatchRequest>): seq<string> {
    if requests == [] then []
    else [EchoLine(requests[0].tool), CallLine(requests[0].line), EXIT_LINE] + BatchLines(requests[1..])
  }

  /** The lines of the file, which the source joins with CRLF. */
  method BuildBatchLines(requests: seq<BatchRequest>) returns (lines: seq<string>)
    ensures lines == ["@echo off"] + BatchLines(requests)
  {
    lines := ["@echo off"];
    for k := 0 to |requests|
      invariant lines + BatchLines(requests[k..]) == ["@echo off"] + BatchLines(requests)
    {
      assert requests[k..][0] == requests[k] && requests[k..][1..] == requests[k + 1..];
      ghost var before := lines;
      lines := lines + [EchoLine(requests[k].tool)];
      lines := lines + [CallLine(requests[k].line)];
      lines := lines + [EXIT_LINE];
      assert lines == before + [EchoLine(requests[k].tool), CallLine(requests[k].line), EXIT_LINE];
      ConcatAssociates(before, [EchoLine(requests[k].tool), CallLine(requests[k].line), EXIT_LINE],
                       BatchLines(requests[k + 1..]));
    }
    NothingAfter(lines);
  }

  // ---------- reading a batch line ----------

  /**
   Where the next word stands. `First` is the command itself, with or without a `call`
   before it. The arguments behind it are split at `,`, `;` and `=` if it is a batch file,
   and otherwise reach the program as they are.
   */
  datatype Place = First(called: bool) | Later(splits: bool)

  predicate Splits(place: Place) {
    place.First? || place.splits
  }

  function NextPlace(place: Place, word: string, isBatchFile: string -> bool): Place {
    match place
    case First(called) =>
      if !called && word == "call" then First(true)
      else if called then Later(PercentRound(word).Some? && isBatchFile(PercentRound(word).value))
      else Later(isBatchFile(word))
    case Later(_) => place
  }

  predicate IsBlankAt(place: Place, c: char) {
    c == ' ' || c == '\t' || (Splits(place) && IsBatchSplit(c))
  }

  predicate IsBatchSplit(c: char) {
    c == ',' || c == ';' || c == '='
  }

  /** What ends a word outside double quotes. */
  predicate SeparatesAt(place: Place, c: char) {
    CmdSeparates(c) && (Splits(place) || !IsBatchSplit(c))
  }

  /** Reads one word; double quotes are dropped and protect separators. */
  function BatchScan(place: Place, quoted: bool, s: string): Reading
    decreases |s|
  {
    if s == "" || (!quoted && SeparatesAt(place, s[0])) then Reading("", s)
    else if s[0] == '"' then BatchScan(place, !quoted, s[1..])
    else Emit([s[0]], BatchScan(place, quoted, s[1..]))
  }

  lemma {:induction false} BatchScanShrinks(place: Place, quoted: bool, s: string)
    ensures BatchScan(place, quoted, s).Reading?
    ensures |BatchScan(place, quoted, s).rest| <= |s|
    ensures s != "" && !(!quoted && SeparatesAt(place, s[0])) ==> |BatchScan(place, quoted, s).rest| < |s|
    decreases |s|
  {
    if s != "" && (quoted || !SeparatesAt(place, s[0])) {
      BatchScanShrinks(place, if s[0] == '"' then !quoted else quoted, s[1..]);
    }
  }

  function BatchLex(place: Place, s: string, isBatchFile: string -> bool): Option<seq<Token>>
    decreases |s|
  {
    if s == "" then Some([])
    else if IsBlankAt(place, s[0]) then BatchLex(place, s[1..], isBatchFile)
    else if s[0] == '|' && |s| > 1 && s[1] == '|' then Prepend([OrIf], BatchLex(First(false), s[2..], isBatchFile))
    else if SeparatesAt(place, s[0]) then None
    else
      BatchScanShrinks(place, false, s);
      var r := BatchScan(place, false, s);
      Prepend([Word(r.word)], BatchLex(NextPlace(place, r.word, isBatchFile), r.rest, isBatchFile))
  }

  /** The second round of expansion, which `call` performs on its words. */
  function ExpandWords(words: Command): Option<Command> {
    if words == [] then Some([])
    else
      match (PercentRound(words[0]), ExpandWords(words[1..]))
      case (Some(w), Some(more)) => Some([w] + more)
      case _ => None
  }

  datatype BatchCommand = BatchCommand(called: bool, words: Command)

  function ReadCommand(words: Command): Option<BatchCommand> {
    if words != [] && words[0] == "call" then
      match ExpandWords(words[1..])
      case None => None
      case Some(expanded) => Some(BatchCommand(true, expanded))
    else Some(BatchCommand(false, words))
  }

  function ReadCommands(list: OrList): Option<seq<BatchCommand>> {
    if list == [] then Some([])
    else
      match (ReadCommand(list[0]), ReadCommands(list[1..]))
      case (Some(c), Some(more)) => Some([c] + more)
      case _ => None
  }

  function ReadLine(line: string, isBatchFile: string -> bool): Option<seq<BatchCommand>> {
    match PercentRound(line)
    case None => None
    case Some(once) =>
      match BatchLex(First(false), once, isBatchFile)
      case None => None
      case Some(ts) =>
        match Parse(ts)
        case None => None
        case Some(lists) => if |lists| == 1 then ReadCommands(lists[0]) else None
  }

  // ---------- running a batch file ----------

  /** `left` is set when no further line of this file will run. */
  datatype Batch = Batch(trace: seq<Command>, level: int, left: bool)

  function RunBatchCommands(cs: seq<BatchCommand>, st: Batch, outcomes: Outcomes, isBatchFile: string -> bool): Batch {
    if cs == [] || cs[0].words == [] then st
    else
      var c := cs[0];
      var next := Batch(st.trace + [c.words], outcomes(st.trace, c.words), !c.called && isBatchFile(c.words[0]));
      if next.left || next.level == 0 || |cs| == 1 then next else RunBatchCommands(cs[1..], next, outcomes, isBatchFile)
  }

  /** `if errorlevel n exit /b %errorlevel%`, for one digit n, leaves at level n and above. */
  function LeaveLevel(line: string): Option<nat> {
    if |line| == 36 && line[..14] == "if errorlevel " && line[15..] == " exit /b %errorlevel%" && '0' <= line[14] <= '9'
    then Some((line[14] - '0') as nat)
    else None
  }

  function RunBatchLines(
    lines: seq<string>, st: Batch, outcomes: Outcomes, isBatchFile: string -> bool): Option<Batch>
  {
    if lines == [] || st.left then Some(st)
    else if lines[0] == "@echo off" || StartsWith(lines[0], "echo ") then
      RunBatchLines(lines[1..], st, outcomes, isBatchFile)
    else if LeaveLevel(lines[0]).Some? then
      RunBatchLines(lines[1..], st.(left := st.level >= LeaveLevel(lines[0]).value), outcomes, isBatchFile)
    else
      match ReadLine(lines[0], isBatchFile)
      case None => None
      case Some(cs) => RunBatchLines(lines[1..], RunBatchCommands(cs, st, outcomes, isBatchFile), outcomes, isBatchFile)
  }

  // ---------- the generated line is read back ----------

  /** Outside quotes the word is one word where it stands. */
  predicate IsUnsplit(place: Place, w: string) {
    forall i | 0 <= i < |w| :: !SeparatesAt(place, w[i])
  }

  predicate BatchSafeArg(place: Place, a: Arg) {
    match a
    case Path(p) => p != "" && '"' !in p && (NeedsQuotes(p) || IsUnsplit(place, p))
    case Bare(w) => w != "" && '"' !in w && '%' !in w && IsUnsplit(place, w)
    case Script(_) => false
  }

  /** Where the arguments of a command stand. */
  function ArgPlace(c: Args, isBatchFile: string -> bool): Place
    requires c != []
  {
    Later(isBatchFile(ArgWord(c[0])))
  }

  predicate BatchSafeArgs(c: Args, isBatchFile: string -> bool) {
    && c != [] && BatchSafeArg(First(true), c[0])
    && forall j | 1 <= j < |c| :: BatchSafeArg(ArgPlace(c, isBatchFile), c[j])
  }

  /** Without `call` there is no second round, so the words must not need one. */
  predicate IsBare(c: Args) {
    (forall j | 0 <= j < |c| :: c[j].Bare?) && c != [] && c[0] != Bare("call")
  }

  predicate BatchSafeInvocation(v: Invocation, isBatchFile: string -> bool) {
    BatchSafeArgs(v.args, isBatchFile) && (v.called || IsBare(v.args))
  }

  /** Only a fallback at the end may go without `call`. */
  predicate BatchSafe(line: Line, isBatchFile: string -> bool) {
    && line != []
    && (forall i | 0 <= i < |line| :: BatchSafeInvocation(line[i], isBatchFile))
    && (forall i | 0 <= i < |line| && (i == 0 || i + 1 < |line|) :: line[i].called)
  }

  /** What the batch parser's own round makes of an argument, and the word cmd sees then. */
  function OnceText(a: Arg): string {
    match a
    case Path(p) => Dressed(p, ReplaceChar(p, '%', "%%"))
    case Bare(w) => w
    case Script(body) => body
  }

  function OnceWord(a: Arg): string {
    match a
    case Path(p) => ReplaceChar(p, '%', "%%")
    case Bare(w) => w
    case Script(body) => body
  }

  lemma {:induction false} PercentRoundConcat(a: string, b: string)
    requires PercentRound(a).Some?
    ensures PercentRound(a + b) == Prefixed(PercentRound(a).value, PercentRound(b))
    decreases |a|
  {
    if a == "" {
      NothingBefore(b);
      PrefixedNothing(PercentRound(b));
    } else {
      var k := if a[0] == '%' then 2 else 1;
      assert (a + b)[k..] == a[k..] + b;
      PercentRoundConcat(a[k..], b);
      PrefixedTwice([a[0]], PercentRound(a[k..]).value, PercentRound(b));
    }
  }

  lemma {:induction false} PercentFree(s: string)
    requires '%' !in s
    ensures PercentRound(s) == Some(s)
  {
    if s != "" {
      PercentFree(s[1..]);
      assert s == [s[0]] + s[1..];
    }
  }

  lemma {:induction false} RoundOfJoin(texts: seq<string>, onces: seq<string>, sep: string)
    requires |texts| == |onces| && '%' !in sep
    requires forall i | 0 <= i < |texts| :: PercentRound(texts[i]) == Some(onces[i])
    ensures PercentRound(Join(texts, sep)) == Some(Join(onces, sep))
    decreases |texts|
  {
    if |texts| > 1 {
      var tail := Join(texts[1..], sep);
      PercentFree(sep);
      PercentRoundConcat(sep, tail);
      PercentRoundConcat(texts[0], sep + tail);
      ConcatAssociates(texts[0], sep, tail);
      RoundOfJoin(texts[1..], onces[1..], sep);
      ConcatAssociates(onces[0], sep, Join(onces[1..], sep));
    }
  }

  lemma ArgRounds(place: Place, a: Arg)
    requires BatchSafeArg(place, a)
    ensures PercentRound(BatchArgText(a)) == Some(OnceText(a))
    ensures PercentRound(OnceWord(a)) == Some(ArgWord(a))
  {
    match a
    case Path(p) =>
      QuotedForm(p);
      RoundOverDressed(p, 2);
      RoundOverReplaced(p, 1, "");
      NothingAfter(ReplaceChar(p, '%', "%%"));
      ReplaceCharWithItself(p, '%');
      NothingAfter(p);
    case Bare(w) =>
      PercentFree(w);
  }

  predicate BatchTerminated(rest: string) {
    rest == "" || rest[0] == ' '
  }

  ghost predicate BatchDenotes(place: Place, text: string, word: string) {
    && text != "" && !SeparatesAt(place, text[0]) && !IsBlankAt(place, text[0])
    && forall rest :: BatchTerminated(rest) ==> BatchScan(place, false, text + rest) == Reading(word, rest)
  }

  lemma {:induction false} BatchScanText(place: Place, t: string, quoted: bool, rest: string)
    requires '"' !in t && (quoted || IsUnsplit(place, t))
    ensures BatchScan(place, quoted, t + rest) == Emit(t, BatchScan(place, quoted, rest))
  {
    BatchScanShrinks(place, quoted, rest);
    if t == "" {
      NothingBefore(rest);
    } else {
      assert t[0] in t;
      assert (t + rest)[1..] == t[1..] + rest;
      BatchScanText(place, t[1..], quoted, rest);
      assert t == [t[0]] + t[1..];
      ConcatAssociates([t[0]], t[1..], BatchScan(place, quoted, rest).word);
    }
  }

  lemma UnquotedDenotes(place: Place, t: string)
    requires t != "" && '"' !in t && IsUnsplit(place, t)
    ensures BatchDenotes(place, t, t)
  {
    forall rest | BatchTerminated(rest) ensures BatchScan(place, false, t + rest) == Reading(t, rest) {
      BatchScanText(place, t, false, rest);
      NothingAfter(t);
    }
  }

  lemma QuotedScan(place: Place, t: string, rest: string)
    requires '"' !in t && t != "" && BatchTerminated(rest)
    ensures BatchScan(place, false, "\"" + t + "\"" + rest) == Reading(t, rest)
  {
    var close := "\"" + rest;
    var s := "\"" + t + "\"" + rest;
    assert s[1..] == t + close;
    assert close[1..] == rest;
    BatchScanText(place, t, true, close);
    NothingAfter(t);
  }

  lemma QuotedDenotes(place: Place, t: string)
    requires '"' !in t && t != ""
    ensures BatchDenotes(place, "\"" + t + "\"", t)
  {
    forall rest | BatchTerminated(rest)
      ensures BatchScan(place, false, "\"" + t + "\"" + rest) == Reading(t, rest)
    {
      QuotedScan(place, t, rest);
    }
  }

  lemma {:induction false} ReplacedElements(p: string, c: char, with: string)
    ensures forall x | x in ReplaceChar(p, c, with) :: x in with || x in p
    ensures p != "" && with != "" ==> ReplaceChar(p, c, with) != ""
  {
    if p != "" {
      ReplacedElements(p[1..], c, with);
    }
  }

  lemma ArgBatchDenotes(place: Place, a: Arg)
    requires BatchSafeArg(place, a)
    ensures BatchDenotes(place, OnceText(a), OnceWord(a))
  {
    match a
    case Path(p) =>
      var t := ReplaceChar(p, '%', "%%");
      ReplacedElements(p, '%', "%%");
      if NeedsQuotes(p) {
        QuotedDenotes(place, t);
      } else {
        forall i | 0 <= i < |t| ensures !SeparatesAt(place, t[i]) {
          assert t[i] in t;
        }
        UnquotedDenotes(place, t);
      }
    case Bare(w) =>
      UnquotedDenotes(place, w);
  }

  lemma BatchLexWord(place: Place, text: string, word: string, rest: string, isBatchFile: string -> bool)
    requires BatchDenotes(place, text, word) && BatchTerminated(rest)
    ensures BatchLex(place, text + rest, isBatchFile)
         == Prepend([Word(word)], BatchLex(NextPlace(place, word, isBatchFile), rest, isBatchFile))
  {
  }

  lemma BatchLexBlank(place: Place, rest: string, isBatchFile: string -> bool)
    ensures BatchLex(place, " " + rest, isBatchFile) == BatchLex(place, rest, isBatchFile)
  {
  }

  lemma BatchLexOr(place: Place, tail: string, isBatchFile: string -> bool)
    ensures BatchLex(place, " || " + tail, isBatchFile) == Prepend([OrIf], BatchLex(First(false), tail, isBatchFile))
  {
    var spaced := " " + tail;
    var bars := "||" + spaced;
    assert " || " + tail == " " + bars;
    assert bars[2..] == spaced;
    BatchLexBlank(place, bars, isBatchFile);
    BatchLexBlank(First(false), tail, isBatchFile);
  }

  /** Each text is read as its word in the place where it comes. */
  ghost predicate EachDenotes(place: Place, texts: seq<string>, words: Command, isBatchFile: string -> bool)
    decreases |texts|
  {
    |texts| == |words| &&
    (texts == [] ||
     (BatchDenotes(place, texts[0], words[0])
      && EachDenotes(NextPlace(place, words[0], isBatchFile), texts[1..], words[1..], isBatchFile)))
  }

  function PlaceAfter(place: Place, words: Command, isBatchFile: string -> bool): Place
    decreases |words|
  {
    if words == [] then place else PlaceAfter(NextPlace(place, words[0], isBatchFile), words[1..], isBatchFile)
  }

  lemma BatchLexWordAndMore(
      place: Place, text: string, word: string, tail: string, ts: seq<Token>, r: Option<seq<Token>>,
      isBatchFile: string -> bool)
    requires BatchDenotes(place, text, word)
    requires BatchLex(NextPlace(place, word, isBatchFile), tail, isBatchFile) == Prepend(ts, r)
    ensures BatchLex(place, text + " " + tail, isBatchFile) == Prepend([Word(word)] + ts, r)
  {
    var afterFirst := " " + tail;
    assert text + " " + tail == text + afterFirst;
    BatchLexWord(place, text, word, afterFirst, isBatchFile);
    BatchLexBlank(NextPlace(place, word, isBatchFile), tail, isBatchFile);
    PrependTwice([Word(word)], ts, r);
  }

  lemma {:induction false} BatchLexWords(
      place: Place, texts: seq<string>, words: Command, rest: string, isBatchFile: string -> bool)
    requires texts != [] && EachDenotes(place, texts, words, isBatchFile) && BatchTerminated(rest)
    ensures BatchLex(place, Join(texts, " ") + rest, isBatchFile)
         == Prepend(WordTokens(words), BatchLex(PlaceAfter(place, words, isBatchFile), rest, isBatchFile))
    decreases |texts|
  {
    var next := NextPlace(place, words[0], isBatchFile);
    if |texts| == 1 {
      BatchLexWord(place, texts[0], words[0], rest, isBatchFile);
      assert words[1..] == [];
      assert PlaceAfter(next, [], isBatchFile) == next;
      assert WordTokens(words) == [Word(words[0])];
    } else {
      BatchLexWords(next, texts[1..], words[1..], rest, isBatchFile);
      JoinHead(texts, " ", rest);
      BatchLexWordAndMore(
        place, texts[0], words[0], Join(texts[1..], " ") + rest, WordTokens(words[1..]),
        BatchLex(PlaceAfter(place, words, isBatchFile), rest, isBatchFile), isBatchFile);
    }
  }

  // What a command becomes after the batch parser's round, and its words at that point.

  function OnceArgTexts(c: Args): (r: seq<string>)
    ensures |r| == |c|
  {
    seq(|c|, i requires 0 <= i < |c| => OnceText(c[i]))
  }

  function OnceArgWords(c: Args): (r: Command)
    ensures |r| == |c|
  {
    seq(|c|, i requires 0 <= i < |c| => OnceWord(c[i]))
  }

  function OnceTexts(v: Invocation): seq<string> {
    Called(v.called, OnceArgTexts(v.args))
  }

  function OnceWords(v: Invocation): Command {
    Called(v.called, OnceArgWords(v.args))
  }

  lemma CallIsPlain()
    ensures '%' !in "call" && BatchDenotes(First(false), "call", "call")
  {
    assert '"' !in "call";
    UnquotedDenotes(First(false), "call");
  }

  lemma CallRound(v: Invocation, isBatchFile: string -> bool)
    requires BatchSafeInvocation(v, isBatchFile)
    ensures PercentRound(CallText(v)) == Some(Join(OnceTexts(v), " "))
  {
    CallIsPlain();
    PercentFree("call");
    var texts, onces := Called(v.called, ArgTextsOf(v.args)), OnceTexts(v);
    forall i | 0 <= i < |texts| ensures PercentRound(texts[i]) == Some(onces[i]) {
      var k := if v.called then i - 1 else i;
      if k == 0 {
        ArgRounds(First(true), v.args[0]);
      } else if k > 0 {
        ArgRounds(ArgPlace(v.args, isBatchFile), v.args[k]);
      }
    }
    RoundOfJoin(texts, onces, " ");
  }

  lemma {:induction false} LaterDenote(place: Place, c: Args, isBatchFile: string -> bool)
    requires place.Later? && forall j | 0 <= j < |c| :: BatchSafeArg(place, c[j])
    ensures EachDenotes(place, OnceArgTexts(c), OnceArgWords(c), isBatchFile)
    decreases |c|
  {
    if c != [] {
      ArgBatchDenotes(place, c[0]);
      LaterDenote(place, c[1..], isBatchFile);
      assert OnceArgTexts(c)[1..] == OnceArgTexts(c[1..]) && OnceArgWords(c)[1..] == OnceArgWords(c[1..]);
    }
  }

  /** The command, and then its arguments where it puts them. */
  lemma ArgsDenote(v: Invocation, isBatchFile: string -> bool)
    requires BatchSafeInvocation(v, isBatchFile)
    ensures EachDenotes(First(v.called), OnceArgTexts(v.args), OnceArgWords(v.args), isBatchFile)
  {
    var c := v.args;
    var place := ArgPlace(c, isBatchFile);
    ArgRounds(First(true), c[0]);
    ArgBatchDenotes(First(true), c[0]);
    SamePlace(OnceText(c[0]), OnceWord(c[0]), v.called);
    assert OnceArgTexts(c)[1..] == OnceArgTexts(c[1..]) && OnceArgWords(c)[1..] == OnceArgWords(c[1..]);
    LaterDenote(place, c[1..], isBatchFile);
    assert NextPlace(First(v.called), OnceWord(c[0]), isBatchFile) == place by {
      if !v.called {
        assert OnceWord(c[0]) == c[0].text == ArgWord(c[0]);
      }
    }
  }

  lemma {:induction false} SameScan(quoted: bool, s: string)
    ensures BatchScan(First(true), quoted, s) == BatchScan(First(false), quoted, s)
    decreases |s|
  {
    if s != "" {
      SameScan(if s[0] == '"' then !quoted else quoted, s[1..]);
    }
  }

  lemma SamePlace(text: string, word: string, called: bool)
    requires BatchDenotes(First(true), text, word)
    ensures BatchDenotes(First(called), text, word)
  {
    forall rest | BatchTerminated(rest)
      ensures BatchScan(First(called), false, text + rest) == Reading(word, rest)
    {
      SameScan(false, text + rest);
    }
  }

  lemma CalledDenotes(v: Invocation, isBatchFile: string -> bool)
    requires BatchSafeInvocation(v, isBatchFile)
    ensures EachDenotes(First(false), OnceTexts(v), OnceWords(v), isBatchFile)
  {
    ArgsDenote(v, isBatchFile);
    CallIsPlain();
    if v.called {
      assert OnceTexts(v)[1..] == OnceArgTexts(v.args) && OnceWords(v)[1..] == OnceArgWords(v.args);
    }
  }

  lemma CallLexes(v: Invocation, rest: string, isBatchFile: string -> bool)
    requires BatchSafeInvocation(v, isBatchFile) && BatchTerminated(rest)
    ensures BatchLex(First(false), Join(OnceTexts(v), " ") + rest, isBatchFile)
         == Prepend(WordTokens(OnceWords(v)),
                    BatchLex(PlaceAfter(First(false), OnceWords(v), isBatchFile), rest, isBatchFile))
  {
    CalledDenotes(v, isBatchFile);
    BatchLexWords(First(false), OnceTexts(v), OnceWords(v), rest, isBatchFile);
  }

  lemma {:induction false} ExpandBack(words: Command, c: Args)
    requires |words| == |c|
    requires forall i | 0 <= i < |c| :: words[i] == OnceWord(c[i]) && PercentRound(words[i]) == Some(ArgWord(c[i]))
    ensures ExpandWords(words) == Some(ArgWords(c))
    decreases |words|
  {
    if words != [] {
      ExpandBack(words[1..], c[1..]);
      assert ArgWords(c) == [ArgWord(c[0])] + ArgWords(c[1..]);
    }
  }

  lemma CallIsRead(v: Invocation, isBatchFile: string -> bool)
    requires BatchSafeInvocation(v, isBatchFile)
    ensures ReadCommand(OnceWords(v)) == Some(BatchCommand(v.called, ArgWords(v.args)))
  {
    if v.called {
      assert OnceWords(v)[1..] == OnceArgWords(v.args);
      forall i | 0 <= i < |v.args| ensures PercentRound(OnceWord(v.args[i])) == Some(ArgWord(v.args[i])) {
        ArgRounds(if i == 0 then First(true) else ArgPlace(v.args, isBatchFile), v.args[i]);
      }
      ExpandBack(OnceWords(v)[1..], v.args);
    } else {
      assert OnceWords(v) == ArgWords(v.args);
      assert v.args[0].text != "call";
    }
  }

  function OnceTextsOf(line: Line): (r: seq<string>)
    ensures |r| == |line|
  {
    seq(|line|, i requires 0 <= i < |line| => Join(OnceTexts(line[i]), " "))
  }

  function OnceWordsOf(line: Line): (r: OrList)
    ensures |r| == |line|
  {
    seq(|line|, i requires 0 <= i < |line| => OnceWords(line[i]))
  }

  function Calls(line: Line): (r: seq<BatchCommand>)
    ensures |r| == |line|
  {
    seq(|line|, i requires 0 <= i < |line| => BatchCommand(line[i].called, ArgWords(line[i].args)))
  }

  predicate AllSafeInvocations(line: Line, isBatchFile: string -> bool) {
    forall i | 0 <= i < |line| :: BatchSafeInvocation(line[i], isBatchFile)
  }

  lemma {:induction false} AlternativesLex(line: Line, isBatchFile: string -> bool)
    requires line != [] && AllSafeInvocations(line, isBatchFile)
    ensures BatchLex(First(false), Join(OnceTextsOf(line), " || "), isBatchFile) == Some(ListTokens(OnceWordsOf(line)))
    decreases |line|
  {
    var first := Join(OnceTexts(line[0]), " ");
    var ts := WordTokens(OnceWords(line[0]));
    if |line| == 1 {
      CallLexes(line[0], "", isBatchFile);
      NothingAfter(first);
      PrependToNothing(ts);
    } else {
      var later := Join(OnceTextsOf(line[1..]), " || ");
      AlternativesLex(line[1..], isBatchFile);
      assert OnceTextsOf(line)[1..] == OnceTextsOf(line[1..]);
      assert OnceWordsOf(line)[1..] == OnceWordsOf(line[1..]);
      ConcatAssociates(first, " || ", later);
      BatchLexOr(PlaceAfter(First(false), OnceWords(line[0]), isBatchFile), later, isBatchFile);
      CallLexes(line[0], " || " + later, isBatchFile);
    }
  }

  lemma CallsOfFirst(line: Line)
    requires line != []
    ensures OnceWordsOf(line)[0] == OnceWords(line[0]) && OnceWordsOf(line)[1..] == OnceWordsOf(line[1..])
    ensures Calls(line) == [BatchCommand(line[0].called, ArgWords(line[0].args))] + Calls(line[1..])
  {
  }

  lemma {:induction false} CallsAreRead(line: Line, isBatchFile: string -> bool)
    requires AllSafeInvocations(line, isBatchFile)
    ensures ReadCommands(OnceWordsOf(line)) == Some(Calls(line))
    decreases |line|
  {
    if line != [] {
      CallIsRead(line[0], isBatchFile);
      CallsAreRead(line[1..], isBatchFile);
      CallsOfFirst(line);
      ReadOneMore(OnceWordsOf(line), BatchCommand(line[0].called, ArgWords(line[0].args)), Calls(line[1..]));
    }
  }

  lemma ReadOneMore(list: OrList, first: BatchCommand, more: seq<BatchCommand>)
    requires list != [] && ReadCommand(list[0]) == Some(first) && ReadCommands(list[1..]) == Some(more)
    ensures ReadCommands(list) == Some([first] + more)
  {
  }

  /**
   A generated line is read as its commands with their own words: through two rounds of
   expansion after `call`, and through one without.
   */
  lemma CallLineIsRead(line: Line, isBatchFile: string -> bool)
    requires BatchSafe(line, isBatchFile)
    ensures ReadLine(CallLine(line), isBatchFile) == Some(Calls(line))
  {
    forall i | 0 <= i < |line| ensures PercentRound(CallTextsOf(line)[i]) == Some(OnceTextsOf(line)[i]) {
      CallRound(line[i], isBatchFile);
    }
    RoundOfJoin(CallTextsOf(line), OnceTextsOf(line), " || ");
    AlternativesLex(line, isBatchFile);
    var list := OnceWordsOf(line);
    ParseList(list, [], []);
    NothingAfter(ListTokens(list));
    NothingBefore(list);
    assert [list] + [] == [list];
    CallsAreRead(line, isBatchFile);
  }

  // ---------- the Windows lines of Hermes ----------

  function Utf16(c: char): seq<nat> {
    var n := c as int;
    if n < 0x10000 then [n] else [0xD800 + (n - 0x10000) / 0x400, 0xDC00 + (n - 0x10000) % 0x400]
  }

  function LittleEndian(units: seq<nat>): (r: seq<nat>)
    ensures |r| == 2 * |units| && AreBytes(r)
  {
    if units == [] then [] else [units[0] % 256, (units[0] / 256) % 256] + LittleEndian(units[1..])
  }

  function Utf16Bytes(script: string): (r: seq<nat>)
    ensures |r| % 2 == 0 && |r| >= 2 * |script| && AreBytes(r)
  {
    if script == "" then [] else LittleEndian(Utf16(script[0])) + Utf16Bytes(script[1..])
  }

  function Base64Char(n: nat): (c: char)
    requires n < 64
    ensures IsBase64(c)
  {
    if n < 26 then 'A' + (n as char)
    else if n < 52 then 'a' + ((n - 26) as char)
    else if n < 62 then '0' + ((n - 52) as char)
    else if n == 62 then '+' else '/'
  }

  predicate IsBase64(c: char) {
    'A' <= c <= 'Z' || 'a' <= c <= 'z' || '0' <= c <= '9' || c == '+' || c == '/'
  }

  predicate AreBytes(bytes: seq<nat>) {
    forall i | 0 <= i < |bytes| :: bytes[i] < 256
  }

  /** The characters that a group of up to three bytes fills. */
  function Base64Group(bytes: seq<nat>): (r: string)
    requires AreBytes(bytes) && 1 <= |bytes| <= 3
    ensures |r| == |bytes| + 1 && AllBase64(r)
  {
    if |bytes| == 1 then [Base64Char(bytes[0] / 4), Base64Char(bytes[0] % 4 * 16)]
    else if |bytes| == 2 then
      [Base64Char(bytes[0] / 4), Base64Char(bytes[0] % 4 * 16 + bytes[1] / 16), Base64Char(bytes[1] % 16 * 4)]
    else
      [Base64Char(bytes[0] / 4), Base64Char(bytes[0] % 4 * 16 + bytes[1] / 16),
       Base64Char(bytes[1] % 16 * 4 + bytes[2] / 64), Base64Char(bytes[2] % 64)]
  }

  predicate AllBase64(s: string) {
    forall i | 0 <= i < |s| :: IsBase64(s[i])
  }

  function Base64Digits(bytes: seq<nat>): (r: string)
    requires AreBytes(bytes)
    ensures AllBase64(r) && (bytes != [] ==> r != "")
  {
    if bytes == [] then ""
    else if |bytes| <= 3 then Base64Group(bytes)
    else Base64Group(bytes[..3]) + Base64Digits(bytes[3..])
  }

  function Padding(count: nat): string {
    if count % 3 == 0 then "" else if count % 3 == 1 then "==" else "="
  }

  /** Standard base64 with padding (section 4 of RFC 4648). */
  function Base64(bytes: seq<nat>): string
    requires AreBytes(bytes)
  {
    Base64Digits(bytes) + Padding(|bytes|)
  }

  function PowershellEncodedCommand(script: string): string {
    Base64(Utf16Bytes(script))
  }

  function HermesInstallArgs(script: string): Args {
    [Bare("powershell"), Bare("-NoProfile"), Bare("-ExecutionPolicy"), Bare("Bypass"), Bare("-EncodedCommand"),
     Bare(PowershellEncodedCommand(script))]
  }

  function HermesInstallLine(script: string): Line {
    [Invocation(true, HermesInstallArgs(script))]
  }

  function HermesUpdateLine(script: string): Line {
    [Invocation(true, [Bare("hermes"), Bare("update")]), Invocation(false, HermesInstallArgs(script))]
  }

  predicate IsLettered(w: string) {
    w != "" && forall i | 0 <= i < |w| :: 'a' <= w[i] <= 'z' || 'A' <= w[i] <= 'Z' || w[i] == '-'
  }

  lemma LetteredIsSafe(place: Place, w: string)
    requires IsLettered(w)
    ensures BatchSafeArg(place, Bare(w))
  {
  }

  lemma PowershellIsLettered()
    ensures IsLettered("powershell") && IsLettered("-NoProfile") && IsLettered("Bypass")
  {
  }

  lemma OptionsAreLettered()
    ensures IsLettered("-ExecutionPolicy") && IsLettered("-EncodedCommand")
  {
  }

  lemma HermesIsLettered()
    ensures IsLettered("hermes") && IsLettered("update")
  {
  }

  lemma DigitsAreUnsplit(place: Place, digits: string)
    requires AllBase64(digits)
    ensures '"' !in digits && '%' !in digits && IsUnsplit(place, digits)
  {
  }

  lemma PaddingIsUnsplitExactly(place: Place, count: nat)
    ensures '"' !in Padding(count) && '%' !in Padding(count)
    ensures IsUnsplit(place, Padding(count)) <==> !Splits(place) || count % 3 == 0
  {
    if count % 3 != 0 && Splits(place) {
      assert SeparatesAt(place, Padding(count)[0]);
    }
  }

  lemma UnsplitConcat(place: Place, a: string, b: string)
    ensures IsUnsplit(place, a + b) <==> IsUnsplit(place, a) && IsUnsplit(place, b)
  {
    assert forall i | 0 <= i < |a| :: (a + b)[i] == a[i];
    assert forall i | 0 <= i < |b| :: (a + b)[|a| + i] == b[i];
  }

  /** The payload is one word to a program, and one to a batch file only if it needs no padding. */
  lemma PayloadIsSafeExactly(script: string, place: Place)
    requires script != ""
    ensures BatchSafeArg(place, Bare(PowershellEncodedCommand(script)))
       <==> !Splits(place) || |Utf16Bytes(script)| % 3 == 0
  {
    var bytes := Utf16Bytes(script);
    DigitsAreUnsplit(place, Base64Digits(bytes));
    PaddingIsUnsplitExactly(place, |bytes|);
    UnsplitConcat(place, Base64Digits(bytes), Padding(|bytes|));
    NotInConcat(Base64Digits(bytes), Padding(|bytes|), '"');
    NotInConcat(Base64Digits(bytes), Padding(|bytes|), '%');
  }

  // ---------- reading the payload back ----------

  /** The value of a character of the base64 alphabet. */
  function Sextet(c: char): (n: Option<nat>)
    ensures n.Some? ==> n.value < 64
  {
    if 'A' <= c <= 'Z' then Some((c - 'A') as nat)
    else if 'a' <= c <= 'z' then Some((c - 'a') as nat + 26)
    else if '0' <= c <= '9' then Some((c - '0') as nat + 52)
    else if c == '+' then Some(62)
    else if c == '/' then Some(63)
    else None
  }

  /** Four characters hold three bytes, or two or one if they end in padding. */
  function GroupBytes(g: string): Option<seq<nat>>
    requires |g| == 4
  {
    match (Sextet(g[0]), Sextet(g[1]), Sextet(g[2]), Sextet(g[3]))
    case (Some(a), Some(b), Some(c), Some(d)) => Some([a * 4 + b / 16, b % 16 * 16 + c / 4, c % 4 * 64 + d])
    case (Some(a), Some(b), Some(c), None) =>
      if g[3] == '=' then Some([a * 4 + b / 16, b % 16 * 16 + c / 4]) else None
    case (Some(a), Some(b), None, None) => if g[2..] == "==" then Some([a * 4 + b / 16]) else None
    case _ => None
  }

  /** Only the last group may be padded. */
  function DecodeBase64(s: string): Option<seq<nat>> {
    if s == "" then Some([])
    else if |s| < 4 then None
    else
      match (GroupBytes(s[..4]), DecodeBase64(s[4..]))
      case (Some(group), Some(more)) => if |group| == 3 || s[4..] == "" then Some(group + more) else None
      case _ => None
  }

  /** Little-endian UTF-16 with surrogate pairs. */
  function DecodeUtf16(bytes: seq<nat>): Option<string> {
    if bytes == [] then Some("")
    else if |bytes| < 2 then None
    else
      var u := bytes[0] + 256 * bytes[1];
      if u < 0xD800 || 0xE000 <= u < 0x10000 then Prefixed([u as char], DecodeUtf16(bytes[2..]))
      else if |bytes| < 4 then None
      else
        var v := bytes[2] + 256 * bytes[3];
        if u < 0xDC00 <= v < 0xE000
        then Prefixed([(0x10000 + (u - 0xD800) * 0x400 + (v - 0xDC00)) as char], DecodeUtf16(bytes[4..]))
        else None
  }

  lemma SextetOfChar(n: nat)
    requires n < 64
    ensures Sextet(Base64Char(n)) == Some(n)
  {
  }

  lemma GroupOfThree(x: nat, y: nat, z: nat)
    requires x < 256 && y < 256 && z < 256
    ensures GroupBytes(Base64Group([x, y, z])) == Some([x, y, z])
  {
    BitsOfThree(x, y, z);
    CharsOfGroup(x, y, z);
    var g := Base64Group([x, y, z]);
    GroupFromSextets(g, x / 4, x % 4 * 16 + y / 16, y % 16 * 4 + z / 64, z % 64, x, y, z);
  }

  lemma GroupFromSextets(g: string, a: nat, b: nat, c: nat, d: nat, x: nat, y: nat, z: nat)
    requires a < 64 && b < 64 && c < 64 && d < 64
    requires g == [Base64Char(a), Base64Char(b), Base64Char(c), Base64Char(d)]
    requires a * 4 + b / 16 == x && b % 16 * 16 + c / 4 == y && c % 4 * 64 + d == z
    ensures GroupBytes(g) == Some([x, y, z])
  {
    CharsOfThree(a, b, c, d);
  }

  lemma CharsOfGroup(x: nat, y: nat, z: nat)
    requires x < 256 && y < 256 && z < 256
    ensures Base64Group([x, y, z]) ==
            [Base64Char(x / 4), Base64Char(x % 4 * 16 + y / 16), Base64Char(y % 16 * 4 + z / 64), Base64Char(z % 64)]
  {
    var bytes := [x, y, z];
    assert |bytes| == 3 && bytes[0] == x && bytes[1] == y && bytes[2] == z;
  }

  lemma BitsOfThree(x: nat, y: nat, z: nat)
    requires x < 256 && y < 256 && z < 256
    ensures var a, b, c, d := x / 4, x % 4 * 16 + y / 16, y % 16 * 4 + z / 64, z % 64;
            && a < 64 && b < 64 && c < 64 && d < 64
            && a * 4 + b / 16 == x && b % 16 * 16 + c / 4 == y && c % 4 * 64 + d == z
  {
  }

  lemma CharsOfThree(a: nat, b: nat, c: nat, d: nat)
    requires a < 64 && b < 64 && c < 64 && d < 64
    ensures GroupBytes([Base64Char(a), Base64Char(b), Base64Char(c), Base64Char(d)])
         == Some([a * 4 + b / 16, b % 16 * 16 + c / 4, c % 4 * 64 + d])
  {
    SextetOfChar(a);
    SextetOfChar(b);
    SextetOfChar(c);
    SextetOfChar(d);
  }

  lemma GroupOfTwo(x: nat, y: nat)
    requires x < 256 && y < 256
    ensures GroupBytes(Base64Group([x, y]) + "=") == Some([x, y])
  {
    BitsOfTwo(x, y);
    CharsOfTwo(x, y);
    CharsThenPadding(x / 4, x % 4 * 16 + y / 16, y % 16 * 4);
  }

  lemma CharsOfTwo(x: nat, y: nat)
    requires x < 256 && y < 256
    ensures Base64Group([x, y]) == [Base64Char(x / 4), Base64Char(x % 4 * 16 + y / 16), Base64Char(y % 16 * 4)]
  {
    var bytes := [x, y];
    assert |bytes| == 2 && bytes[0] == x && bytes[1] == y;
  }

  lemma BitsOfTwo(x: nat, y: nat)
    requires x < 256 && y < 256
    ensures var a, b, c := x / 4, x % 4 * 16 + y / 16, y % 16 * 4;
            && a < 64 && b < 64 && c < 64
            && a * 4 + b / 16 == x && b % 16 * 16 + c / 4 == y
  {
  }

  lemma CharsThenPadding(a: nat, b: nat, c: nat)
    requires a < 64 && b < 64 && c < 64
    ensures GroupBytes([Base64Char(a), Base64Char(b), Base64Char(c)] + "=")
         == Some([a * 4 + b / 16, b % 16 * 16 + c / 4])
  {
    SextetOfChar(a);
    SextetOfChar(b);
    SextetOfChar(c);
  }

  lemma GroupOfOne(x: nat)
    requires x < 256
    ensures GroupBytes(Base64Group([x]) + "==") == Some([x])
  {
    SextetOfChar(x / 4);
    SextetOfChar(x % 4 * 16);
  }

  lemma DecodeLast(g: string)
    requires |g| == 4
    ensures DecodeBase64(g) == GroupBytes(g)
  {
    assert g[..4] == g && g[4..] == "";
    if GroupBytes(g).Some? {
      NothingAfter(GroupBytes(g).value);
    }
  }

  lemma Base64OneMore(bytes: seq<nat>, first: seq<nat>, more: seq<nat>)
    requires AreBytes(bytes) && |bytes| > 3 && first == bytes[..3] && more == bytes[3..]
    ensures AreBytes(first) && AreBytes(more) && Base64(bytes) == Base64Group(first) + Base64(more)
  {
    assert Padding(|bytes|) == Padding(|more|);
    ConcatAssociates(Base64Group(first), Base64Digits(more), Padding(|bytes|));
  }

  lemma DecodeOneMore(g: string, group: seq<nat>, text: string, more: seq<nat>)
    requires |g| == 4 && GroupBytes(g) == Some(group) && |group| == 3 && DecodeBase64(text) == Some(more)
    ensures DecodeBase64(g + text) == Some(group + more)
  {
    assert (g + text)[..4] == g && (g + text)[4..] == text;
  }

  lemma {:induction false} Base64RoundTrip(bytes: seq<nat>)
    requires AreBytes(bytes)
    ensures DecodeBase64(Base64(bytes)) == Some(bytes)
    decreases |bytes|
  {
    if |bytes| > 3 {
      var first, more := bytes[..3], bytes[3..];
      Base64RoundTrip(more);
      assert first == [bytes[0], bytes[1], bytes[2]];
      GroupOfThree(bytes[0], bytes[1], bytes[2]);
      Base64OneMore(bytes, first, more);
      DecodeOneMore(Base64Group(first), first, Base64(more), more);
      assert first + more == bytes;
    } else if bytes != [] {
      LastGroupRoundTrip(bytes);
    }
  }

  lemma LastGroupRoundTrip(bytes: seq<nat>)
    requires AreBytes(bytes) && 1 <= |bytes| <= 3
    ensures DecodeBase64(Base64(bytes)) == Some(bytes)
  {
    if |bytes| == 3 {
      assert bytes == [bytes[0], bytes[1], bytes[2]];
      NothingAfter(Base64Group(bytes));
      GroupOfThree(bytes[0], bytes[1], bytes[2]);
      DecodeLast(Base64(bytes));
    } else if |bytes| == 2 {
      assert bytes == [bytes[0], bytes[1]];
      GroupOfTwo(bytes[0], bytes[1]);
      DecodeLast(Base64(bytes));
    } else {
      assert bytes == [bytes[0]];
      GroupOfOne(bytes[0]);
      DecodeLast(Base64(bytes));
    }
  }

  lemma DecodeUnits(c: char, more: seq<nat>)
    ensures DecodeUtf16(LittleEndian(Utf16(c)) + more) == Prefixed([c], DecodeUtf16(more))
  {
    var n := c as int;
    if n < 0x10000 {
      DecodeOneUnit(n, more);
    } else {
      DecodePair(0xD800 + (n - 0x10000) / 0x400, 0xDC00 + (n - 0x10000) % 0x400, more);
    }
  }

  lemma UnitBytes(u: nat)
    requires u < 0x10000
    ensures u % 256 + 256 * (u / 256 % 256) == u
  {
  }

  lemma DecodeOneUnit(u: nat, more: seq<nat>)
    requires u < 0xD800 || 0xE000 <= u < 0x10000
    ensures DecodeUtf16(LittleEndian([u]) + more) == Prefixed([u as char], DecodeUtf16(more))
  {
    UnitBytes(u);
    var bytes := LittleEndian([u]) + more;
    assert bytes[0] == u % 256 && bytes[1] == u / 256 % 256;
    assert bytes[2..] == more;
  }

  lemma DecodePair(u: nat, v: nat, more: seq<nat>)
    requires 0xD800 <= u < 0xDC00 <= v < 0xE000
    ensures DecodeUtf16(LittleEndian([u, v]) + more)
         == Prefixed([(0x10000 + (u - 0xD800) * 0x400 + (v - 0xDC00)) as char], DecodeUtf16(more))
  {
    UnitBytes(u);
    UnitBytes(v);
    assert [u, v][1..] == [v] && [v][1..] == [];
    assert LittleEndian([v]) == [v % 256, v / 256 % 256];
    var bytes := LittleEndian([u, v]) + more;
    assert bytes[0] == u % 256 && bytes[1] == u / 256 % 256;
    assert bytes[2] == v % 256 && bytes[3] == v / 256 % 256;
    assert bytes[4..] == more;
  }

  lemma {:induction false} Utf16RoundTrip(script: string)
    ensures DecodeUtf16(Utf16Bytes(script)) == Some(script)
  {
    if script != "" {
      DecodeUnits(script[0], Utf16Bytes(script[1..]));
      Utf16RoundTrip(script[1..]);
      assert [script[0]] + script[1..] == script;
    }
  }

  /** Decoding the payload as base64 and then as UTF-16 gives every script back. */
  lemma PayloadRoundTrip(script: string)
    ensures var bytes := DecodeBase64(PowershellEncodedCommand(script));
            bytes.Some? && DecodeUtf16(bytes.value) == Some(script)
  {
    Base64RoundTrip(Utf16Bytes(script));
    Utf16RoundTrip(script);
  }

  lemma HermesInstallArgsAreSafe(script: string, isBatchFile: string -> bool)
    requires script != "" && !isBatchFile("powershell")
    ensures BatchSafeArgs(HermesInstallArgs(script), isBatchFile) && IsBare(HermesInstallArgs(script))
  {
    PowershellIsLettered();
    OptionsAreLettered();
    PayloadIsSafeExactly(script, Later(false));
    var c := HermesInstallArgs(script);
    LetteredIsSafe(First(true), "powershell");
    forall j | 1 <= j < 5 ensures BatchSafeArg(Later(false), c[j]) {
      LetteredIsSafe(Later(false), c[j].text);
    }
    assert "powershell"[0] != "call"[0];
  }

  /**
   Whatever the script, the line that installs Hermes starts PowerShell on it, and the line
   that updates Hermes calls its own update first and then does the same, without `call`.
   */
  lemma HermesLinesAreRead(script: string, isBatchFile: string -> bool)
    requires script != "" && !isBatchFile("powershell")
    ensures ReadLine(CallLine(HermesInstallLine(script)), isBatchFile) ==
            Some([BatchCommand(true, RunsPowershell(PowershellEncodedCommand(script)))])
    ensures ReadLine(CallLine(HermesUpdateLine(script)), isBatchFile) ==
            Some([BatchCommand(true, ["hermes", "update"]),
                  BatchCommand(false, RunsPowershell(PowershellEncodedCommand(script)))])
    ensures BatchSafe(HermesInstallLine(script), isBatchFile) && BatchSafe(HermesUpdateLine(script), isBatchFile)
  {
    HermesInstallArgsAreSafe(script, isBatchFile);
    HermesIsLettered();
    LetteredIsSafe(First(true), "hermes");
    LetteredIsSafe(ArgPlace([Bare("hermes"), Bare("update")], isBatchFile), "update");
    CallLineIsRead(HermesInstallLine(script), isBatchFile);
    CallLineIsRead(HermesUpdateLine(script), isBatchFile);
    HermesCalls(script);
  }

  /** PowerShell without a profile, running an encoded script whatever the execution policy. */
  function RunsPowershell(payload: string): Command {
    ["powershell", "-NoProfile", "-ExecutionPolicy", "Bypass", "-EncodedCommand", payload]
  }

  lemma HermesCalls(script: string)
    ensures var run := RunsPowershell(PowershellEncodedCommand(script));
            && Calls(HermesInstallLine(script)) == [BatchCommand(true, run)]
            && Calls(HermesUpdateLine(script)) == [BatchCommand(true, ["hermes", "update"]), BatchCommand(false, run)]
  {
    assert ArgWords(HermesInstallArgs(script)) == RunsPowershell(PowershellEncodedCommand(script));
    assert ArgWords([Bare("hermes"), Bare("update")]) == ["hermes", "update"];
  }

  // ---------- what a run does ----------

  predicate NoTrue(line: Line) {
    forall i | 0 <= i < |line| :: ArgWords(line[i].args) != ["true"]
  }

  /** Which alternative is the last one tried. */
  function LastTried(list: OrList, trace: seq<Command>, outcomes: Outcomes): (k: nat)
    requires list != []
    ensures k < |list|
    decreases |list|
  {
    if |list| == 1 || outcomes(trace, list[0]) == 0 then 0
    else 1 + LastTried(list[1..], trace + [list[0]], outcomes)
  }

  /** The exit code of that alternative, which is the line's. */
  function LastCode(list: OrList, trace: seq<Command>, outcomes: Outcomes): int
    requires list != []
    decreases |list|
  {
    if |list| == 1 || outcomes(trace, list[0]) == 0 then outcomes(trace, list[0])
    else LastCode(list[1..], trace + [list[0]], outcomes)
  }

  /** The last command tried is a batch file without `call`: control does not come back. */
  predicate GivesControlAway(line: Line, trace: seq<Command>, outcomes: Outcomes, isBatchFile: string -> bool)
    requires line != []
  {
    var list := AlternativesOf(line);
    var k := LastTried(list, trace, outcomes);
    !line[k].called && list[k] != [] && isBatchFile(list[k][0])
  }

  predicate IsRunnable(line: Line) {
    && line != [] && NoTrue(line)
    && (forall i | 0 <= i < |line| :: line[i].args != [])
    && (forall i | 0 <= i < |line| && i + 1 < |line| :: line[i].called)
  }

  /** A line runs its alternatives as alternatives should run. */
  lemma {:induction false} CallsRun(line: Line, st: Batch, outcomes: Outcomes, isBatchFile: string -> bool)
    requires !st.left && IsRunnable(line)
    ensures var r := RunBatchCommands(Calls(line), st, outcomes, isBatchFile);
            var list := AlternativesOf(line);
            var v := TryAlternatives(list, st.trace, outcomes);
            && r == Batch(v.trace, LastCode(list, st.trace, outcomes),
                          GivesControlAway(line, st.trace, outcomes, isBatchFile))
            && (v.ok <==> r.level == 0) && |r.trace| > |st.trace|
    decreases |line|
  {
    var c := ArgWords(line[0].args);
    var list := AlternativesOf(line);
    assert Calls(line)[0] == BatchCommand(line[0].called, c) && list[0] == c;
    if |line| > 1 && outcomes(st.trace, c) != 0 {
      var later := line[1..];
      assert list[1..] == AlternativesOf(later);
      assert Calls(line)[1..] == Calls(later);
      CallsRun(later, Batch(st.trace + [c], outcomes(st.trace, c), false), outcomes, isBatchFile);
      assert LastTried(list, st.trace, outcomes) == 1 + LastTried(list[1..], st.trace + [c], outcomes);
    }
  }

  predicate GoodBatchRequest(r: BatchRequest, isBatchFile: string -> bool) {
    BatchSafe(r.line, isBatchFile) && NoTrue(r.line)
  }

  predicate AllGood(requests: seq<BatchRequest>, isBatchFile: string -> bool) {
    forall i | 0 <= i < |requests| :: GoodBatchRequest(requests[i], isBatchFile)
  }

  function Steps(requests: seq<BatchRequest>): (r: seq<seq<OrList>>)
    ensures |r| == |requests|
  {
    seq(|requests|, i requires 0 <= i < |requests| => [AlternativesOf(requests[i].line)])
  }

  lemma CallLineStart(line: Line)
    requires line != [] && line[0].called
    ensures CallLine(line) != "" && CallLine(line)[0] == 'c'
  {
    assert Called(true, ArgTextsOf(line[0].args))[0] == "call";
  }

  lemma EchoLineStart(tool: string)
    ensures StartsWith(EchoLine(tool), "echo ")
  {
    var words := EchoWords(tool);
    assert words[0] == "echo";
    assert EchoLine(tool) == "echo" + " " + Join(words[1..], " ");
    assert EchoLine(tool)[..5] == "echo ";
  }

  function AfterCalls(line: Line, st: Batch, outcomes: Outcomes, isBatchFile: string -> bool): Batch {
    RunBatchCommands(Calls(line), st, outcomes, isBatchFile)
  }

  lemma EchoStep(tool: string, later: seq<string>, st: Batch, outcomes: Outcomes, isBatchFile: string -> bool)
    requires !st.left
    ensures RunBatchLines([EchoLine(tool)] + later, st, outcomes, isBatchFile)
         == RunBatchLines(later, st, outcomes, isBatchFile)
  {
    EchoLineStart(tool);
    assert ([EchoLine(tool)] + later)[1..] == later;
  }

  lemma OtherStart(line: string, prefix: string)
    requires line != "" && prefix != "" && line[0] != prefix[0]
    ensures !StartsWith(line, prefix)
  {
    if |prefix| <= |line| {
      assert line[..|prefix|][0] == line[0];
    }
  }

  lemma CallStep(line: Line, later: seq<string>, st: Batch, outcomes: Outcomes, isBatchFile: string -> bool)
    requires BatchSafe(line, isBatchFile) && !st.left
    ensures RunBatchLines([CallLine(line)] + later, st, outcomes, isBatchFile)
         == RunBatchLines(later, AfterCalls(line, st, outcomes, isBatchFile), outcomes, isBatchFile)
  {
    var text := CallLine(line);
    CallLineStart(line);
    CallLineIsRead(line, isBatchFile);
    assert ([text] + later)[1..] == later;
    OtherStart(text, "echo ");
  }

  lemma ExitLineLeavesAtOne(line: string)
    requires line == "if errorlevel 1 exit /b %errorlevel%"
    ensures LeaveLevel(line) == Some(1)
  {
    assert |line| == 36;
    assert line[..14] == "if errorlevel ";
    assert line[15..] == " exit /b %errorlevel%";
  }

  lemma ExitStep(later: seq<string>, st: Batch, outcomes: Outcomes, isBatchFile: string -> bool)
    ensures RunBatchLines([EXIT_LINE] + later, st, outcomes, isBatchFile)
         == RunBatchLines(later, st.(left := st.left || st.level >= 1), outcomes, isBatchFile)
  {
    assert ([EXIT_LINE] + later)[1..] == later;
    assert EXIT_LINE[..5] == "if er" && EXIT_LINE != "@echo off";
    ExitLineLeavesAtOne(EXIT_LINE);
  }

  /** One tool's three lines: run its line, then leave if control is gone or the level is at least 1. */
  lemma ToolLinesRun(r: BatchRequest, later: seq<string>, st: Batch, outcomes: Outcomes, isBatchFile: string -> bool)
    requires GoodBatchRequest(r, isBatchFile) && !st.left
    ensures var after := AfterCalls(r.line, st, outcomes, isBatchFile);
            RunBatchLines([EchoLine(r.tool), CallLine(r.line), EXIT_LINE] + later, st, outcomes, isBatchFile)
            == RunBatchLines(later, after.(left := after.left || after.level >= 1), outcomes, isBatchFile)
  {
    var echo, calls := EchoLine(r.tool), CallLine(r.line);
    assert [echo, calls, EXIT_LINE] + later == [echo] + ([calls] + ([EXIT_LINE] + later));
    EchoStep(r.tool, [calls] + ([EXIT_LINE] + later), st, outcomes, isBatchFile);
    CallStep(r.line, [EXIT_LINE] + later, st, outcomes, isBatchFile);
    ExitStep(later, AfterCalls(r.line, st, outcomes, isBatchFile), outcomes, isBatchFile);
  }

  /**
   A tool that is not the last ends well but has given control away, or fails with a
   negative code, which `if errorlevel 1` does not see, and has not.
   */
  predicate GoesAstray(
    requests: seq<BatchRequest>, trace: seq<Command>, outcomes: Outcomes, isBatchFile: string -> bool)
    requires AllGood(requests, isBatchFile)
    decreases |requests|
  {
    |requests| > 1 &&
    var line, list := requests[0].line, AlternativesOf(requests[0].line);
    var code, gone := LastCode(list, trace, outcomes), GivesControlAway(line, trace, outcomes, isBatchFile);
    || (code == 0 && gone)
    || (code < 0 && !gone)
    || (code == 0 && GoesAstray(requests[1..], TryAlternatives(list, trace, outcomes).trace, outcomes, isBatchFile))
  }

  lemma {:induction false} BatchTraceGrows(
    requests: seq<BatchRequest>, st: Batch, outcomes: Outcomes, isBatchFile: string -> bool)
    requires AllGood(requests, isBatchFile) && !st.left
    ensures var end := RunBatchLines(BatchLines(requests), st, outcomes, isBatchFile);
            end.Some? && |end.value.trace| >= |st.trace| && (requests != [] ==> |end.value.trace| > |st.trace|)
    decreases |requests|
  {
    if requests != [] {
      ToolLinesRun(requests[0], BatchLines(requests[1..]), st, outcomes, isBatchFile);
      CallsRun(requests[0].line, st, outcomes, isBatchFile);
      var after := AfterCalls(requests[0].line, st, outcomes, isBatchFile);
      if !after.left && after.level < 1 {
        BatchTraceGrows(requests[1..], after, outcomes, isBatchFile);
      }
    }
  }

  ghost predicate Agrees(end: Option<Batch>, v: Verdict) {
    end.Some? && end.value.trace == v.trace && (end.value.level == 0 <==> v.ok)
  }

  /** Every list of tools runs at least one command. */
  lemma {:induction false} ToolsTraceGrows(
    requests: seq<BatchRequest>, trace: seq<Command>, outcomes: Outcomes, isBatchFile: string -> bool)
    requires AllGood(requests, isBatchFile)
    ensures |RunTools(Steps(requests), trace, outcomes).trace| >= |trace|
    ensures requests != [] ==> |RunTools(Steps(requests), trace, outcomes).trace| > |trace|
    decreases |requests|
  {
    if requests != [] {
      var list := AlternativesOf(requests[0].line);
      LastStep(list, trace, outcomes);
      CallsRun(requests[0].line, Batch(trace, 0, false), outcomes, isBatchFile);
      assert Steps(requests)[1..] == Steps(requests[1..]);
      ToolsTraceGrows(requests[1..], TryAlternatives(list, trace, outcomes).trace, outcomes, isBatchFile);
    }
  }

  /**
   For every list of requests and every pattern of outcomes the batch file runs the tools
   in order, stops at the first that fails and reports the same verdict, if and only if no
   tool before the last goes astray.
   */
  lemma {:induction false} BatchRunsToolsInOrder(
    requests: seq<BatchRequest>, st: Batch, outcomes: Outcomes, isBatchFile: string -> bool)
    requires AllGood(requests, isBatchFile) && !st.left && st.level == 0
    ensures Agrees(RunBatchLines(BatchLines(requests), st, outcomes, isBatchFile),
                   RunTools(Steps(requests), st.trace, outcomes))
       <==> !GoesAstray(requests, st.trace, outcomes, isBatchFile)
    decreases |requests|
  {
    if requests != [] {
      var later := BatchLines(requests[1..]);
      ToolLinesRun(requests[0], later, st, outcomes, isBatchFile);
      CallsRun(requests[0].line, st, outcomes, isBatchFile);
      LastStep(AlternativesOf(requests[0].line), st.trace, outcomes);
      assert Steps(requests)[1..] == Steps(requests[1..]);
      var after := AfterCalls(requests[0].line, st, outcomes, isBatchFile);
      if after.left {
        ToolsTraceGrows(requests[1..], after.trace, outcomes, isBatchFile);
      } else if after.level == 0 {
        BatchRunsToolsInOrder(requests[1..], after, outcomes, isBatchFile);
      } else if after.level < 0 {
        BatchTraceGrows(requests[1..], after, outcomes, isBatchFile);
      }
    }
  }

  // ---------- when a tool goes astray ----------

  /** If every program ends with -1, two tools or more already disagree. */
  lemma NegativeCodesAreMissed(requests: seq<BatchRequest>, isBatchFile: string -> bool)
    requires AllGood(requests, isBatchFile) && |requests| > 1
    requires forall i | 0 <= i < |requests[0].line| :: requests[0].line[i].called
    ensures GoesAstray(requests, [], (trace, c) => -1, isBatchFile)
  {
    AlwaysFails(AlternativesOf(requests[0].line), []);
  }

  lemma {:induction false} AlwaysFails(list: OrList, trace: seq<Command>)
    requires list != []
    ensures LastCode(list, trace, (trace, c) => -1) == -1
    decreases |list|
  {
    if |list| > 1 {
      AlwaysFails(list[1..], trace + [list[0]]);
    }
  }

  /** No program returns a negative code, and every fallback that is a batch file has its `call`. */
  ghost predicate IsOrdinary(requests: seq<BatchRequest>, outcomes: Outcomes, isBatchFile: string -> bool) {
    && (forall trace, c :: outcomes(trace, c) >= 0)
    && (forall k, i | 0 <= k < |requests| && 0 <= i < |requests[k].line| ::
         var v := requests[k].line[i];
         v.called || (v.args != [] && !isBatchFile(ArgWord(v.args[0]))))
  }

  lemma {:induction false} CodeIsOutcome(list: OrList, trace: seq<Command>, outcomes: Outcomes)
    requires list != [] && forall trace, c :: outcomes(trace, c) >= 0
    ensures LastCode(list, trace, outcomes) >= 0
    decreases |list|
  {
    if |list| > 1 {
      CodeIsOutcome(list[1..], trace + [list[0]], outcomes);
    }
  }

  lemma {:induction false} OrdinaryNeverGoesAstray(
    requests: seq<BatchRequest>, trace: seq<Command>, outcomes: Outcomes, isBatchFile: string -> bool)
    requires AllGood(requests, isBatchFile) && IsOrdinary(requests, outcomes, isBatchFile)
    ensures !GoesAstray(requests, trace, outcomes, isBatchFile)
    decreases |requests|
  {
    if |requests| > 1 {
      var line, list := requests[0].line, AlternativesOf(requests[0].line);
      CodeIsOutcome(list, trace, outcomes);
      var k := LastTried(list, trace, outcomes);
      assert line[k].called || !isBatchFile(list[k][0]);
      OrdinaryNeverGoesAstray(requests[1..], TryAlternatives(list, trace, outcomes).trace, outcomes, isBatchFile);
    }
  }

  /**
   A fallback without `call` gives control away, and with it the later tools, exactly when it
   runs, because the primary failed, and is a batch file. If the primary succeeds, the later
   tools run.
   */
  lemma BareFallbackLosesLaterTools(
    requests: seq<BatchRequest>, trace: seq<Command>, outcomes: Outcomes, isBatchFile: string -> bool)
    requires AllGood(requests, isBatchFile) && requests != [] && |requests[0].line| == 2 && !requests[0].line[1].called
    ensures var line := requests[0].line;
            var first, second := ArgWords(line[0].args), ArgWords(line[1].args);
            var end := RunBatchLines(BatchLines(requests), Batch(trace, 0, false), outcomes, isBatchFile);
            && (GivesControlAway(line, trace, outcomes, isBatchFile)
                <==> outcomes(trace, first) != 0 && isBatchFile(second[0]))
            && (GivesControlAway(line, trace, outcomes, isBatchFile) ==>
                 end == Some(Batch(trace + [first] + [second], outcomes(trace + [first], second), true)))
            && (outcomes(trace, first) == 0 ==>
                 end == RunBatchLines(
                          BatchLines(requests[1..]), Batch(trace + [first], 0, false), outcomes, isBatchFile))
  {
    var st := Batch(trace, 0, false);
    var line := requests[0].line;
    ToolLinesRun(requests[0], BatchLines(requests[1..]), st, outcomes, isBatchFile);
    TwoCallsRun(line, st, outcomes, isBatchFile);
  }

  lemma TwoCallsRun(line: Line, st: Batch, outcomes: Outcomes, isBatchFile: string -> bool)
    requires BatchSafe(line, isBatchFile) && |line| == 2 && !line[1].called && !st.left
    ensures var first, second := ArgWords(line[0].args), ArgWords(line[1].args);
            && second != []
            && LastTried(AlternativesOf(line), st.trace, outcomes) == (if outcomes(st.trace, first) == 0 then 0 else 1)
            && AfterCalls(line, st, outcomes, isBatchFile) ==
               if outcomes(st.trace, first) == 0 then Batch(st.trace + [first], 0, false)
               else Batch(st.trace + [first] + [second], outcomes(st.trace + [first], second), isBatchFile(second[0]))
  {
    assert AlternativesOf(line)[1..] == [AlternativesOf(line)[1]];
    var first, second := ArgWords(line[0].args), ArgWords(line[1].args);
    var calls := Calls(line);
    assert calls[0] == BatchCommand(true, first) && calls[1..] == [BatchCommand(false, second)];
    var next := Batch(st.trace + [first], outcomes(st.trace, first), false);
    assert RunBatchCommands(calls[1..], next, outcomes, isBatchFile) ==
           Batch(next.trace + [second], outcomes(next.trace, second), isBatchFile(second[0]));
  }

  function SingleStepPlans(requests: seq<BatchRequest>): (r: seq<Plan>)
    ensures |r| == |requests|
  {
    seq(|requests|, i requires 0 <= i < |requests| => [ArgsOf(requests[i].line)])
  }

  function ArgsOf(line: Line): (r: Alternatives)
    ensures |r| == |line|
  {
    seq(|line|, i requires 0 <= i < |line| => line[i].args)
  }

  function RequestTools(requests: seq<BatchRequest>): (r: seq<string>)
    ensures |r| == |requests|
  {
    seq(|requests|, i requires 0 <= i < |requests| => requests[i].tool)
  }

  lemma {:induction false} SingleStepLists(requests: seq<BatchRequest>)
    ensures AllOrLists(SingleStepPlans(requests)) == Steps(requests)
    decreases |requests|
  {
    if requests != [] {
      SingleStepLists(requests[1..]);
      assert SingleStepPlans(requests)[1..] == SingleStepPlans(requests[1..]);
      assert Steps(requests) == [Steps(requests)[0]] + Steps(requests[1..]);
      assert OrListOf(ArgsOf(requests[0].line)) == AlternativesOf(requests[0].line);
      assert OrLists([ArgsOf(requests[0].line)]) == [AlternativesOf(requests[0].line)];
    }
  }

  /** Both shells start the same commands and report the same verdict. */
  ghost predicate ShellsAgree(
    requests: seq<BatchRequest>, outcomes: Outcomes, isBatchFile: string -> bool, files: Files)
  {
    var bash := RunBash(PosixScript(RequestTools(requests), SingleStepPlans(requests)), outcomes, files);
    var batch := RunBatchLines(["@echo off"] + BatchLines(requests), Batch([], 0, false), outcomes, isBatchFile);
    && bash.Some? && batch.Some?
    && bash.value.trace == batch.value.trace && (bash.value.status == 0 <==> batch.value.level == 0)
  }

  /**
   Given the same per-tool alternatives, the bash script and the batch file agree if and
   only if no tool before the last goes astray.
   */
  lemma BothShellsAgree(requests: seq<BatchRequest>, outcomes: Outcomes, isBatchFile: string -> bool, files: Files)
    requires AllGood(requests, isBatchFile)
    requires AllSafe(SingleStepPlans(requests), files) && AllToolsOrdinary(Steps(requests))
    ensures ShellsAgree(requests, outcomes, isBatchFile, files) <==> !GoesAstray(requests, [], outcomes, isBatchFile)
  {
    var start := Batch([], 0, false);
    SingleStepLists(requests);
    BashRunsToolsInOrder(RequestTools(requests), SingleStepPlans(requests), outcomes, files);
    BatchRunsToolsInOrder(requests, start, outcomes, isBatchFile);
    assert (["@echo off"] + BatchLines(requests))[1..] == BatchLines(requests);
  }

  /** In particular they agree when no program returns a negative code and batch files are called. */
  lemma OrdinaryShellsAgree(requests: seq<BatchRequest>, outcomes: Outcomes, isBatchFile: string -> bool, files: Files)
    requires AllGood(requests, isBatchFile) && IsOrdinary(requests, outcomes, isBatchFile)
    requires AllSafe(SingleStepPlans(requests), files) && AllToolsOrdinary(Steps(requests))
    ensures ShellsAgree(requests, outcomes, isBatchFile, files)
  {
    OrdinaryNeverGoesAstray(requests, [], outcomes, isBatchFile);
    BothShellsAgree(requests, outcomes, isBatchFile, files);
  }
}
