/**
 The quoting functions that protect paths in generated scripts, each proved
 against the reader it writes for: a POSIX shell, an AppleScript literal around a
 POSIX shell command, and a batch line that `call` expands twice.
 */
module Quoting {
  import opened Text
  import opened PosixShell

  // ---------- POSIX shell ----------

  const SPLICE := "'\"'\"'"

  function ShellSingleQuote(value: string): string {
    "'" + ReplaceChar(value, '\'', SPLICE) + "'"
  }

  /** Only a blank triggers quoting. */
  function QuotePathIfSpaced(p: string): string {
    if ' ' in p then ShellSingleQuote(p) else p
  }

  lemma {:induction false} ScanSpliced(v: string, rest: string)
    requires Terminated(rest)
    ensures Scan(InSingle, ReplaceChar(v, '\'', SPLICE) + ("'" + rest)) == Reading(v, rest)
    ensures !IsLive(InSingle, ReplaceChar(v, '\'', SPLICE) + ("'" + rest))
  {
    if v == "" {
      ScanMove(InSingle, "'", rest, Unquoted, "");
      assert ReplaceChar(v, '\'', SPLICE) + ("'" + rest) == "'" + rest;
    } else {
      var tail := ReplaceChar(v[1..], '\'', SPLICE) + ("'" + rest);
      ScanSpliced(v[1..], rest);
      ScanSplicedChar(v[0], tail);
      SplicedText(v, "'" + rest);
      assert v == [v[0]] + v[1..];
    }
  }

  lemma SplicedText(v: string, close: string)
    requires v != ""
    ensures ReplaceChar(v, '\'', SPLICE) + close
         == (if v[0] == '\'' then SPLICE else [v[0]]) + (ReplaceChar(v[1..], '\'', SPLICE) + close)
  {
  }

  lemma ScanSplicedChar(c: char, tail: string)
    ensures Scan(InSingle, (if c == '\'' then SPLICE else [c]) + tail) == Emit([c], Scan(InSingle, tail))
    ensures IsLive(InSingle, (if c == '\'' then SPLICE else [c]) + tail) <==> IsLive(InSingle, tail)
  {
    if c == '\'' {
      ScanSplice(tail);
    } else {
      ScanMove(InSingle, [c], tail, InSingle, [c]);
    }
  }

  /** Inside single quotes the splice reads as one quote and is back inside single quotes. */
  lemma ScanSplice(tail: string)
    ensures Scan(InSingle, SPLICE + tail) == Emit("'", Scan(InSingle, tail))
    ensures IsLive(InSingle, SPLICE + tail) <==> IsLive(InSingle, tail)
  {
    var closedDouble := "\"" + ("'" + tail);
    SpliceCloses(tail);
    SpliceOpens("'" + closedDouble);
    ScanMove(InDouble, "'", closedDouble, InDouble, "'");
    SpliceText(tail);
  }

  /** From inside double quotes to inside single ones. */
  lemma SpliceCloses(tail: string)
    ensures Scan(InDouble, "\"" + ("'" + tail)) == Scan(InSingle, tail)
    ensures IsLive(InDouble, "\"" + ("'" + tail)) == IsLive(InSingle, tail)
  {
    ScanMove(Unquoted, "'", tail, InSingle, "");
    ScanMove(InDouble, "\"", "'" + tail, Unquoted, "");
  }

  /** And from inside single quotes to inside double ones. */
  lemma SpliceOpens(quote: string)
    ensures Scan(InSingle, "'" + ("\"" + quote)) == Scan(InDouble, quote)
    ensures IsLive(InSingle, "'" + ("\"" + quote)) == IsLive(InDouble, quote)
  {
    ScanMove(Unquoted, "\"", quote, InDouble, "");
    ScanMove(InSingle, "'", "\"" + quote, Unquoted, "");
  }

  lemma SpliceText(tail: string)
    ensures SPLICE + tail == "'" + ("\"" + ("'" + ("\"" + ("'" + tail))))
  {
  }

  lemma ScanSingleQuoted(value: string, rest: string)
    requires Terminated(rest)
    ensures Scan(Unquoted, ShellSingleQuote(value) + rest) == Reading(value, rest)
    ensures !IsLive(Unquoted, ShellSingleQuote(value) + rest)
  {
    var body := ReplaceChar(value, '\'', SPLICE) + ("'" + rest);
    assert ShellSingleQuote(value) + rest == "'" + body;
    ScanSpliced(value, rest);
    ScanMove(Unquoted, "'", body, InSingle, "");
  }

  /** A single-quoted value is one shell word with that value, whatever the value. */
  lemma SingleQuoteRoundTrip(value: string, files: Files)
    ensures Denotes(ShellSingleQuote(value), value, files)
  {
    var text := ShellSingleQuote(value);
    NothingAfter(text);
    ScanSingleQuoted(value, "");
    LexScanned(text, value, files);
    OneWordToken(value);
    AloneDenotes(text, value, files);
  }

  /** The paths the light quoting carries through a shell. */
  predicate SurvivesLightQuoting(p: string, files: Files) {
    ' ' in p || Stays(p, files)
  }

  lemma LightQuotingDenotes(p: string, files: Files)
    requires SurvivesLightQuoting(p, files)
    ensures Denotes(QuotePathIfSpaced(p), p, files)
  {
    if ' ' in p { SingleQuoteRoundTrip(p, files); } else { StayingDenotesItself(p, files); }
  }

  /**
   Whatever files there are, a lightly quoted path is read as exactly that one word if and
   only if it has a blank, and so is quoted; or has no character that needs quoting and, as
   a pattern, matches nothing else; or is lucky: it needs quotes and has none, but is one
   word with a pattern, which matches just the file of that name.
   */
  lemma LightQuotingExact(p: string, files: Files)
    requires p != ""
    ensures Lex(QuotePathIfSpaced(p), files) == Some([Word(p)])
       <==> || ' ' in p
            || (!NeedsShellQuotes(p) && (HasPattern(p) ==> files(p) == [] || files(p) == [p]))
            || IsLuckyWord(p, files)
  {
    RawUnlessQuotes(p);
    if SurvivesLightQuoting(p, files) {
      LightQuotingDenotes(p, files);
      LexLastWord(QuotePathIfSpaced(p), p, files);
    } else if Lex(p, files) == Some([Word(p)]) {
      if NeedsShellQuotes(p) {
        ReadAsItself(p, files);
      } else {
        RawReadAsItself(p, files);
      }
    }
  }

  /** So a path without a pattern and a blank that needs quotes is never read as itself. */
  lemma UnquotedIsMisread(p: string, files: Files)
    requires ' ' !in p && !HasPattern(p) && NeedsShellQuotes(p)
    ensures Lex(QuotePathIfSpaced(p), files) != Some([Word(p)])
  {
    NoPatternNoLiveWord(p);
    LightQuotingExact(p, files);
  }

  lemma {:induction false} QuoteStaysOpen(s: string)
    requires '\'' !in s
    ensures Scan(InSingle, s) == Unreadable
  {
    if s != "" {
      QuoteStaysOpen(s[1..]);
    }
  }

  lemma OpenQuoteIsUnreadable(head: string, tail: string)
    requires IsRawWord(head) && '\'' !in tail
    ensures Scan(Unquoted, head + ("'" + tail)) == Unreadable
    decreases |head|
  {
    var rest := "'" + tail;
    QuoteStaysOpen(tail);
    ScanMove(Unquoted, "'", tail, InSingle, "");
    RawThenUnreadable(head, rest);
  }

  lemma {:induction false} RawThenUnreadable(head: string, rest: string)
    requires AllRaw(head) && Scan(Unquoted, rest) == Unreadable
    ensures Scan(Unquoted, head + rest) == Unreadable
  {
    if head == "" {
      NothingBefore(rest);
    } else {
      assert head + rest == head[..1] + (head[1..] + rest);
      RawThenUnreadable(head[1..], rest);
      ScanMove(Unquoted, head[..1], head[1..] + rest, Unquoted, head[..1]);
    }
  }

  /** Paths that fail exist: a quote without a blank is printed as it is, and stays open. */
  lemma LightQuotingCanFail(files: Files) returns (p: string)
    ensures p == "/o'brien/npm" && Lex(QuotePathIfSpaced(p), files).None?
  {
    var head, tail := "/o", "brien/npm";
    assert IsRawWord(head) && '\'' !in tail && ' ' !in head && ' ' !in tail;
    p := head + ("'" + tail);
    OpenQuoteIsUnreadable(head, tail);
    assert p[0] == '/' && ' ' !in p;
  }

  /** A path with a pattern fails beside a file that the pattern matches. */
  lemma APatternCanFail(p: string, other: string)
    requires IsRawWord(p) && HasPattern(p) && other != p
    ensures Lex(QuotePathIfSpaced(p), raw => [other]) != Some([Word(p)])
  {
    RawUnlessQuotes(p);
    LightQuotingExact(p, raw => [other]);
  }

  lemma {:induction false} QuotesAfterRaw(w: string)
    requires AllRaw(w)
    ensures Scan(Unquoted, w + "''") == Reading(w, "") && (IsLive(Unquoted, w + "''") <==> HasPattern(w))
  {
    if w == "" {
      ScanMove(InSingle, "'", "", Unquoted, "");
      ScanMove(Unquoted, "'", "'", InSingle, "");
      assert w + "''" == "'" + "'" && "'" + "" == "'";
    } else {
      assert w + "''" == w[..1] + (w[1..] + "''");
      QuotesAfterRaw(w[1..]);
      ScanMove(Unquoted, w[..1], w[1..] + "''", Unquoted, w[..1]);
      assert w == w[..1] + w[1..];
      PatternSplit(w);
    }
  }

  /** And luck happens: text with a pattern and quotes in it can match just the file of that name. */
  lemma LuckHappens(w: string, files: Files)
    requires IsRawWord(w) && HasPattern(w) && files(w + "''") == [w + "''"]
    ensures var p := w + "''"; NeedsShellQuotes(p) && Lex(QuotePathIfSpaced(p), files) == Some([Word(p)])
  {
    var p := w + "''";
    assert p[|w|] == '\'' && ' ' !in p && p[0] == w[0];
    QuotesAfterRaw(w);
    LexScanned(p, w, files);
    OneWordToken(p);
  }

  // ---------- AppleScript literals around a shell command ----------

  function ApplescriptStringLiteral(value: string): string {
    "\"" + ReplaceChar(ReplaceChar(value, '\\', "\\\\"), '"', "\\\"") + "\""
  }

  function ApplescriptLauncherCommand(scriptFile: string): string {
    ApplescriptStringLiteral("sh " + ShellSingleQuote(scriptFile))
  }

  function ApplescriptExecLauncherCommand(scriptFile: string): string {
    ApplescriptStringLiteral("exec sh " + ShellSingleQuote(scriptFile))
  }

  /** AppleScript's reading of a string literal. */
  function DecodeLiteral(s: string): Option<string> {
    if s != "" && s[0] == '"' then DecodeBody(s[1..]) else None
  }

  function DecodeBody(s: string): Option<string> {
    if s == "" then None
    else if s[0] == '"' then if |s| == 1 then Some("") else None
    else if s[0] == '\\' then
      if |s| == 1 then None
      else if s[1] == '\\' || s[1] == '"' then ConsChar(s[1], DecodeBody(s[2..]))
      else if s[1] == 'n' then ConsChar('\n', DecodeBody(s[2..]))
      else if s[1] == 'r' then ConsChar('\r', DecodeBody(s[2..]))
      else if s[1] == 't' then ConsChar('\t', DecodeBody(s[2..]))
      else None
    else ConsChar(s[0], DecodeBody(s[1..]))
  }

  function ConsChar(c: char, r: Option<string>): Option<string> {
    match r
    case None => None
    case Some(text) => Some([c] + text)
  }

  lemma {:induction false} ReplaceCharConcat(a: string, b: string, c: char, with: string)
    ensures ReplaceChar(a + b, c, with) == ReplaceChar(a, c, with) + ReplaceChar(b, c, with)
  {
    if a == "" {
      assert a + b == b;
    } else {
      assert (a + b)[1..] == a[1..] + b;
      ReplaceCharConcat(a[1..], b, c, with);
    }
  }

  /** What the two successive replacements make of one character. */
  function EscapedChar(c: char): string {
    if c == '\\' then "\\\\" else if c == '"' then "\\\"" else [c]
  }

  lemma EscapeChar(c: char, rest: string)
    ensures ReplaceChar(ReplaceChar([c] + rest, '\\', "\\\\"), '"', "\\\"")
         == EscapedChar(c) + ReplaceChar(ReplaceChar(rest, '\\', "\\\\"), '"', "\\\"")
  {
    var once := if c == '\\' then "\\\\" else [c];
    assert ([c] + rest)[1..] == rest;
    ReplaceCharConcat(once, ReplaceChar(rest, '\\', "\\\\"), '"', "\\\"");
    assert [c][1..] == "";
    assert once == (if c == '\\' then [c] + [c] else [c]);
    if c == '\\' {
      ReplaceCharConcat([c], [c], '"', "\\\"");
    }
    assert ReplaceChar([c], '"', "\\\"") == (if c == '"' then "\\\"" else [c]);
  }

  lemma DecodeEscaped(c: char, tail: string)
    ensures DecodeBody(EscapedChar(c) + tail) == ConsChar(c, DecodeBody(tail))
  {
    var s := EscapedChar(c) + tail;
    if c == '\\' || c == '"' {
      assert s[2..] == tail && s[0] == '\\' && s[1] == c;
    } else {
      assert s[1..] == tail && s[0] == c;
    }
  }

  lemma {:induction false} DecodeBodyInverts(v: string)
    ensures DecodeBody(ReplaceChar(ReplaceChar(v, '\\', "\\\\"), '"', "\\\"") + "\"") == Some(v)
  {
    var body := ReplaceChar(ReplaceChar(v, '\\', "\\\\"), '"', "\\\"") + "\"";
    if v == "" {
      assert body == "\"";
    } else {
      var tail := ReplaceChar(ReplaceChar(v[1..], '\\', "\\\\"), '"', "\\\"") + "\"";
      DecodeBodyInverts(v[1..]);
      assert v == [v[0]] + v[1..];
      EscapeChar(v[0], v[1..]);
      assert body == EscapedChar(v[0]) + tail;
      DecodeEscaped(v[0], tail);
    }
  }

  /** Reading the literal gives the value back, whatever quotes and backslashes it has. */
  lemma ApplescriptRoundTrip(value: string)
    ensures DecodeLiteral(ApplescriptStringLiteral(value)) == Some(value)
  {
    var body := ReplaceChar(ReplaceChar(value, '\\', "\\\\"), '"', "\\\"") + "\"";
    DecodeBodyInverts(value);
    var literal := ApplescriptStringLiteral(value);
    assert literal == "\"" + body;
    assert literal[1..] == body;
  }

  /**
   Through both layers, AppleScript and then the shell, the launcher commands are
   exactly the words `sh path` and `exec sh path`.
   */
  lemma LauncherRoundTrip(path: string, files: Files)
    ensures var command := DecodeLiteral(ApplescriptLauncherCommand(path));
            command.Some? && Lex(command.value, files) == Some([Word("sh"), Word(path)])
    ensures var command := DecodeLiteral(ApplescriptExecLauncherCommand(path));
            command.Some? && Lex(command.value, files) == Some([Word("exec"), Word("sh"), Word(path)])
  {
    var q := ShellSingleQuote(path);
    ApplescriptRoundTrip("sh " + q);
    ApplescriptRoundTrip("exec sh " + q);
    LexLauncher(q, path, files);
  }

  lemma LexLauncher(q: string, path: string, files: Files)
    requires q == ShellSingleQuote(path)
    ensures Lex("sh " + q, files) == Some([Word("sh"), Word(path)])
    ensures Lex("exec sh " + q, files) == Some([Word("exec"), Word("sh"), Word(path)])
  {
    SingleQuoteRoundTrip(path, files);
    LexLastWord(q, path, files);
    LaunchersArePlain();
    LexBehind("sh", q, [Word(path)], files);
    assert "sh" + " " + q == "sh " + q;
    assert [Word("sh")] + [Word(path)] == [Word("sh"), Word(path)];
    LexBehind("exec", "sh " + q, [Word("sh"), Word(path)], files);
    assert "exec" + " " + ("sh " + q) == "exec sh " + q;
    assert [Word("exec")] + [Word("sh"), Word(path)] == [Word("exec"), Word("sh"), Word(path)];
  }

  lemma LaunchersArePlain()
    ensures IsPlainWord("sh") && IsPlainWord("exec")
  {
  }

  lemma LexBehind(word: string, tail: string, ts: seq<Token>, files: Files)
    requires IsPlainWord(word) && Lex(tail, files) == Some(ts)
    ensures Lex(word + " " + tail, files) == Some([Word(word)] + ts)
  {
    PlainWordDenotesItself(word, files);
    PrependToNothing(ts);
    LexWordAndMore(word, word, tail, ts, Some([]), files);
    PrependToNothing([Word(word)] + ts);
  }

  // ---------- batch files ----------

  function WinDoubleQuote(value: string): string {
    "\"" + ReplaceChar(value, '"', "\\\"") + "\""
  }

  /** The separators and escapes whose presence makes the source quote a path. */
  predicate TriggersQuotes(c: char) {
    c == ' ' || c == '&' || c == '(' || c == ')' || c == '^' || c == ';' || c == '<' || c == '>' || c == '|' || c == ','
  }

  predicate NeedsQuotes(p: string) {
    exists i | 0 <= i < |p| :: TriggersQuotes(p[i])
  }

  function WinQuotePathForBatch(p: string): string {
    var escaped := ReplaceChar(p, '%', "%%%%");
    if NeedsQuotes(p) then WinDoubleQuote(escaped) else escaped
  }

  /**
   One left-to-right round of percent expansion: `%%` is a literal percent sign and a
   lone `%` would start a variable reference, which this reading refuses.
   */
  function PercentRound(s: string): Option<string> {
    if s == "" then Some("")
    else if s[0] == '%' then
      if |s| > 1 && s[1] == '%' then ConsChar('%', PercentRound(s[2..])) else None
    else ConsChar(s[0], PercentRound(s[1..]))
  }

  /** No character for which `separates` holds stands outside double quotes. */
  predicate OneToken(s: string, quoted: bool, separates: char -> bool) {
    s == "" || (if s[0] == '"' then OneToken(s[1..], !quoted, separates)
                else (quoted || !separates(s[0])) && OneToken(s[1..], quoted, separates))
  }

  function Prefixed(prefix: string, r: Option<string>): Option<string> {
    match r
    case None => None
    case Some(text) => Some(prefix + text)
  }

  lemma PrefixedTwice(a: string, b: string, r: Option<string>)
    ensures Prefixed(a, Prefixed(b, r)) == Prefixed(a + b, r)
  {
    if r.Some? {
      assert a + (b + r.value) == a + b + r.value;
    }
  }

  lemma PrefixedNothing(r: Option<string>)
    ensures Prefixed("", r) == r
  {
    if r.Some? {
      assert "" + r.value == r.value;
    }
  }

  lemma HalveOne(tail: string)
    ensures PercentRound("%%" + tail) == Prefixed("%", PercentRound(tail))
  {
    assert ("%%" + tail)[2..] == tail;
  }

  lemma HalveTwo(tail: string)
    ensures PercentRound("%%%%" + tail) == Prefixed("%%", PercentRound(tail))
  {
    var two := "%%" + tail;
    HalveOne(tail);
    HalveOne(two);
    PrefixedTwice("%", "%", PercentRound(tail));
    assert "%%%%" + tail == "%%" + two;
    assert "%" + "%" == "%%";
  }

  /** The text that stands for one `%` with `rounds` rounds of expansion still to come. */
  function Percents(rounds: nat): string
    requires rounds <= 2
  {
    if rounds == 2 then "%%%%" else if rounds == 1 then "%%" else "%"
  }

  lemma {:induction false} RoundOverReplaced(p: string, rounds: nat, tail: string)
    requires 0 < rounds <= 2
    ensures PercentRound(ReplaceChar(p, '%', Percents(rounds)) + tail)
         == Prefixed(ReplaceChar(p, '%', Percents(rounds - 1)), PercentRound(tail))
  {
    if p == "" {
      assert "" + tail == tail;
      PrefixedNothing(PercentRound(tail));
    } else {
      var piece := if p[0] == '%' then Percents(rounds) else [p[0]];
      var halved := if p[0] == '%' then Percents(rounds - 1) else [p[0]];
      var more := ReplaceChar(p[1..], '%', Percents(rounds)) + tail;
      RoundOverReplaced(p[1..], rounds, tail);
      assert ReplaceChar(p, '%', Percents(rounds)) + tail == piece + more;
      assert PercentRound(piece + more) == Prefixed(halved, PercentRound(more)) by {
        if p[0] == '%' { HalveOne(more); HalveTwo(more); } else { assert ([p[0]] + more)[1..] == more; }
      }
      PrefixedTwice(halved, ReplaceChar(p[1..], '%', Percents(rounds - 1)), PercentRound(tail));
    }
  }

  lemma {:induction false} ReplaceCharWithItself(p: string, c: char)
    ensures ReplaceChar(p, c, [c]) == p
  {
    if p != "" {
      ReplaceCharWithItself(p[1..], c);
    }
  }

  /** `text`, in the quotes that the path `p` calls for. */
  function Dressed(p: string, text: string): string {
    if NeedsQuotes(p) then "\"" + text + "\"" else text
  }

  lemma RoundOfQuote()
    ensures PercentRound("\"") == Some("\"")
  {
    assert "\""[1..] == "";
    assert ['"'] + "" == "\"";
  }

  lemma RoundOfQuoted(text: string, halved: string)
    requires PercentRound(text + "\"") == Some(halved + "\"")
    ensures PercentRound("\"" + text + "\"") == Some("\"" + halved + "\"")
  {
    var s := "\"" + text + "\"";
    assert s[1..] == text + "\"";
    assert "\"" + (halved + "\"") == "\"" + halved + "\"";
  }

  lemma RoundOverDressed(p: string, rounds: nat)
    requires 0 < rounds <= 2
    ensures PercentRound(Dressed(p, ReplaceChar(p, '%', Percents(rounds))))
         == Some(Dressed(p, ReplaceChar(p, '%', Percents(rounds - 1))))
  {
    var text, halved := ReplaceChar(p, '%', Percents(rounds)), ReplaceChar(p, '%', Percents(rounds - 1));
    if NeedsQuotes(p) {
      RoundOverReplaced(p, rounds, "\"");
      RoundOfQuote();
      RoundOfQuoted(text, halved);
    } else {
      RoundOverReplaced(p, rounds, "");
      assert text + "" == text && halved + "" == halved;
    }
  }

  lemma {:induction false} ReplaceCharKeepsOut(p: string, c: char, with: string, d: char)
    requires d !in p && d !in with
    ensures d !in ReplaceChar(p, c, with)
  {
    if p != "" {
      ReplaceCharKeepsOut(p[1..], c, with, d);
    }
  }

  lemma QuotedForm(p: string)
    requires '"' !in p
    ensures WinQuotePathForBatch(p) == Dressed(p, ReplaceChar(p, '%', "%%%%"))
  {
    ReplaceCharKeepsOut(p, '%', "%%%%", '"');
    ReplaceCharAbsent(ReplaceChar(p, '%', "%%%%"), '"', "\\\"");
  }

  /**
   For every path without a double quote (Windows forbids them in paths), the batch
   parser's round and then `call`'s round both succeed, so no variable reference is ever
   started, and they give back the path, inside its quotes if it was quoted.
   */
  lemma BatchQuotingRoundTrip(p: string)
    requires '"' !in p
    ensures PercentRound(WinQuotePathForBatch(p)).Some?
    ensures PercentRound(PercentRound(WinQuotePathForBatch(p)).value) == Some(Dressed(p, p))
  {
    QuotedForm(p);
    RoundOverDressed(p, 2);
    RoundOverDressed(p, 1);
    ReplaceCharWithItself(p, '%');
  }

  lemma {:induction false} OneTokenWithoutQuotes(s: string, tail: string, quoted: bool, separates: char -> bool)
    requires '"' !in s
    ensures OneToken(s + tail, quoted, separates)
       <==> (quoted || forall i | 0 <= i < |s| :: !separates(s[i])) && OneToken(tail, quoted, separates)
  {
    if s == "" {
      assert s + tail == tail;
    } else {
      assert (s + tail)[1..] == s[1..] + tail;
      OneTokenWithoutQuotes(s[1..], tail, quoted, separates);
      assert s == [s[0]] + s[1..];
    }
  }

  /**
   Whatever characters cmd may separate tokens at, the form cmd finally sees is one token
   exactly when the path was quoted or holds none of them.
   */
  lemma BatchQuotingOneToken(p: string, separates: char -> bool)
    requires '"' !in p && !separates('"')
    ensures OneToken(Dressed(p, p), false, separates)
       <==> NeedsQuotes(p) || forall i | 0 <= i < |p| :: !separates(p[i])
  {
    if NeedsQuotes(p) {
      OneTokenWithoutQuotes(p, "\"", true, separates);
      assert Dressed(p, p)[1..] == p + "\"";
    } else {
      OneTokenWithoutQuotes(p, "", false, separates);
      assert p + "" == p;
    }
  }

  /** So at the separators the source lists the path always stays one token. */
  lemma BatchQuotingCoversItsOwnList(p: string)
    requires '"' !in p
    ensures OneToken(Dressed(p, p), false, TriggersQuotes)
  {
    BatchQuotingOneToken(p, TriggersQuotes);
  }

  /** cmd also separates at `=` and tab, which the source does not list. */
  predicate CmdSeparates(c: char) {
    || c == ' ' || c == '\t' || c == ',' || c == ';' || c == '='
    || c == '&' || c == '(' || c == ')' || c == '^' || c == '<' || c == '>' || c == '|'
  }

  /** At cmd's full list it stays one token if and only if it was quoted or has no `=` and no tab. */
  lemma BatchQuotingAgainstCmd(p: string)
    requires '"' !in p
    ensures OneToken(Dressed(p, p), false, CmdSeparates) <==> NeedsQuotes(p) || ('=' !in p && '\t' !in p)
  {
    BatchQuotingOneToken(p, CmdSeparates);
  }

  /** Such paths exist: a directory with `=` in its name splits the path. */
  lemma BatchQuotingCanFail()
    ensures !OneToken(Dressed("C:\\a=b\\npm.cmd", "C:\\a=b\\npm.cmd"), false, CmdSeparates)
  {
    var p := "C:\\a=b\\npm.cmd";
    assert p[4] == '=';
    PlainCmdPath(p);
    BatchQuotingAgainstCmd(p);
  }

  lemma PlainCmdPath(p: string)
    requires p == "C:\\a=b\\npm.cmd"
    ensures '"' !in p && !NeedsQuotes(p)
  {
  }
}
