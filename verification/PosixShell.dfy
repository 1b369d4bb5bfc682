/**
 The part of the POSIX shell language that generated scripts use: token
 recognition and quote removal (sections 2.2 and 2.3 of POSIX.1-2017 XCU), pathname
 expansion against given files (section 2.6.6), OR lists (section 2.9.3), and `set -e`
 (section 2.14). Text that needs another expansion, a pipe or a redirection is outside
 the fragment and lexes to None.
 */
module PosixShell {
  import opened Text

  datatype Token = Word(text: string) | OrIf | Semi | Newline

  type Command = seq<string>
  type OrList = seq<Command>

  /** The names that a pattern, as it is written, matches; none where it matches nothing. */
  type Files = string -> seq<string>

  const NO_FILES: Files := raw => []

  predicate IsBlank(c: char) {
    c == ' ' || c == '\t'
  }

  /** Characters that end an unquoted word. */
  predicate EndsWord(c: char) {
    || IsBlank(c) || c == '\n'
    || c == '|' || c == '&' || c == ';' || c == '<' || c == '>' || c == '(' || c == ')'
  }

  /** Characters of a pattern: what they become depends on the files there are. */
  predicate IsPattern(c: char) {
    c == '*' || c == '?' || c == '['
  }

  /** Characters that quote or start an expansion. */
  predicate IsQuoting(c: char) {
    c == '\'' || c == '"' || c == '\\' || c == '$' || c == '`'
  }

  /** Characters that stay in a word as they are written. */
  predicate IsRaw(c: char) {
    !EndsWord(c) && !IsQuoting(c)
  }

  /** Characters that stand for themselves outside quotes, whatever files there are. */
  predicate IsLiteral(c: char) {
    IsRaw(c) && !IsPattern(c)
  }

  predicate AllRaw(s: string) {
    forall i | 0 <= i < |s| :: IsRaw(s[i])
  }

  predicate AllLiteral(s: string) {
    forall i | 0 <= i < |s| :: IsLiteral(s[i])
  }

  predicate HasPattern(s: string) {
    exists i | 0 <= i < |s| :: IsPattern(s[i])
  }

  /** A non-empty word that needs no quoting: `#` and `~` are special only at its start. */
  predicate IsPlainWord(s: string) {
    s != "" && AllLiteral(s) && s[0] != '#' && s[0] != '~'
  }

  /** The same but for patterns. */
  predicate IsRawWord(s: string) {
    s != "" && AllRaw(s) && s[0] != '#' && s[0] != '~'
  }

  /** It has a character that never stands for itself outside quotes, anywhere or at the start. */
  predicate NeedsShellQuotes(s: string) {
    || (exists i | 0 <= i < |s| :: EndsWord(s[i]) || IsQuoting(s[i]))
    || (s != "" && (s[0] == '#' || s[0] == '~'))
  }

  /** A word without quotes and with a pattern stays as it is if the pattern matches nothing, or nothing else. */
  predicate IsKeptWord(s: string, files: Files) {
    IsPlainWord(s) || (IsRawWord(s) && (files(s) == [] || files(s) == [s]))
  }

  datatype Mode = Unquoted | InSingle | InDouble

  /** One step of reading a word: stop, fail, or consume `used` characters and emit `out`. */
  datatype Move = Stop | Fail | Go(mode: Mode, used: nat, out: string)

  predicate IsEscapedInDouble(c: char) {
    c == '$' || c == '`' || c == '"' || c == '\\'
  }

  function NextMove(mode: Mode, s: string): (m: Move)
    ensures m.Go? ==> 0 < m.used <= |s| && |m.out| <= m.used
    ensures m.Go? && |m.out| == m.used ==>
              m.mode == mode && m.out == s[..m.used] && (mode == Unquoted ==> AllRaw(m.out))
    ensures m == Stop ==> mode == Unquoted && (s == "" || EndsWord(s[0]))
  {
    match mode
    case InSingle =>
      if s == "" then Fail
      else if s[0] == '\'' then Go(Unquoted, 1, "")
      else Go(InSingle, 1, s[..1])
    case InDouble =>
      if s == "" || s[0] == '$' || s[0] == '`' then Fail
      else if s[0] == '"' then Go(Unquoted, 1, "")
      else if s[0] == '\\' && |s| > 1 && IsEscapedInDouble(s[1]) then Go(InDouble, 2, s[1..2])
      else if s[0] == '\\' && |s| > 1 && s[1] == '\n' then Go(InDouble, 2, "")
      else Go(InDouble, 1, s[..1])
    case Unquoted =>
      if s == "" || EndsWord(s[0]) then Stop
      else if s[0] == '\'' then Go(InSingle, 1, "")
      else if s[0] == '"' then Go(InDouble, 1, "")
      else if s[0] == '\\' && |s| > 1 then Go(Unquoted, 2, if s[1] == '\n' then "" else s[1..2])
      else if IsRaw(s[0]) then Go(Unquoted, 1, s[..1])
      else Fail
  }

  datatype Reading = Unreadable | Reading(word: string, rest: string)

  /** Reads one word: its text after quote removal and the rest of the input. */
  function Scan(mode: Mode, s: string): Reading
    decreases |s|
  {
    match NextMove(mode, s)
    case Stop => Reading("", s)
    case Fail => Unreadable
    case Go(next, used, out) => Emit(out, Scan(next, s[used..]))
  }

  /** The word that scanning reads has a pattern outside quotes. */
  predicate IsLive(mode: Mode, s: string)
    decreases |s|
  {
    match NextMove(mode, s)
    case Stop => false
    case Fail => false
    case Go(next, used, _) => (mode == Unquoted && IsPattern(s[0])) || IsLive(next, s[used..])
  }

  /** What a word, written as `raw`, becomes. */
  function Fields(raw: string, word: string, live: bool, files: Files): (r: seq<string>)
    ensures r != []
  {
    if live && files(raw) != [] then files(raw) else [word]
  }

  function Emit(out: string, r: Reading): Reading {
    if out == "" || r.Unreadable? then r else r.(word := out + r.word)
  }

  /** Scanning never lengthens the text, shortens it when it was inside quotes, and consumes something of a word. */
  lemma {:induction false} ScanShrinks(mode: Mode, s: string)
    requires Scan(mode, s).Reading?
    ensures var Reading(word, rest) := Scan(mode, s);
            && |word| + |rest| <= |s|
            && (mode != Unquoted ==> |word| + |rest| < |s|)
            && (s != "" && !EndsWord(s[0]) ==> |rest| < |s|)
    decreases |s|
  {
    match NextMove(mode, s)
    case Stop =>
    case Go(next, used, out) =>
      ScanShrinks(next, s[used..]);
  }

  lemma AllRawSplit(s: string, k: nat)
    requires k <= |s|
    ensures AllRaw(s) <==> AllRaw(s[..k]) && AllRaw(s[k..])
  {
    assert s == s[..k] + s[k..];
  }

  /** A character that does not stay makes the word shorter than the text. */
  lemma {:induction false} ScanDropsSpecials(s: string)
    requires Scan(Unquoted, s).Reading? && !AllRaw(s)
    ensures |Scan(Unquoted, s).word| < |s|
    decreases |s|
  {
    match NextMove(Unquoted, s)
    case Stop =>
    case Go(next, used, out) =>
      ScanShrinks(next, s[used..]);
      if next == Unquoted && |out| == used {
        AllRawSplit(s, used);
        ScanDropsSpecials(s[used..]);
      }
  }

  function Prepend(ts: seq<Token>, r: Option<seq<Token>>): Option<seq<Token>> {
    match r
    case None => None
    case Some(more) => Some(ts + more)
  }

  lemma PrependNothing(r: Option<seq<Token>>)
    ensures Prepend([], r) == r
  {
    if r.Some? {
      assert [] + r.value == r.value;
    }
  }

  lemma PrependToNothing(ts: seq<Token>)
    ensures Prepend(ts, Some([])) == Some(ts)
  {
    assert ts + [] == ts;
  }

  lemma PrependTwice(xs: seq<Token>, ys: seq<Token>, r: Option<seq<Token>>)
    ensures Prepend(xs, Prepend(ys, r)) == Prepend(xs + ys, r)
  {
    if r.Some? {
      assert xs + (ys + r.value) == xs + ys + r.value;
    }
  }

  /** Token recognition. */
  function Lex(s: string, files: Files): Option<seq<Token>>
    decreases |s|
  {
    if s == "" then Some([])
    else if IsBlank(s[0]) then Lex(s[1..], files)
    else if s[0] == '\n' then Prepend([Newline], Lex(s[1..], files))
    else if s[0] == ';' then Prepend([Semi], Lex(s[1..], files))
    else if s[0] == '|' then
      if |s| > 1 && s[1] == '|' then Prepend([OrIf], Lex(s[2..], files)) else None
    else if EndsWord(s[0]) || s[0] == '#' || s[0] == '~' then None
    else
      match Scan(Unquoted, s)
      case Unreadable => None
      case Reading(word, rest) =>
        ScanShrinks(Unquoted, s);
        var fields := Fields(s[..|s| - |rest|], word, IsLive(Unquoted, s), files);
        Prepend(WordTokens(fields), Lex(rest, files))
  }

  /** The words of a text that have a pattern outside quotes, as they are written. */
  function LiveWords(s: string): seq<string>
    decreases |s|
  {
    if s == "" then []
    else if IsBlank(s[0]) || s[0] == '\n' || s[0] == ';' then LiveWords(s[1..])
    else if s[0] == '|' then (if |s| > 1 && s[1] == '|' then LiveWords(s[2..]) else [])
    else if EndsWord(s[0]) || s[0] == '#' || s[0] == '~' then []
    else
      match Scan(Unquoted, s)
      case Unreadable => []
      case Reading(_, rest) =>
        ScanShrinks(Unquoted, s);
        (if IsLive(Unquoted, s) then [s[..|s| - |rest|]] else []) + LiveWords(rest)
  }

  /** The text is one word, blanks around it aside. */
  predicate IsOneWord(s: string) {
    var r := Lex(s, NO_FILES);
    r.Some? && |r.value| == 1 && r.value[0].Word?
  }

  /** Text that would need quotes, but is one pattern, which matches just the file of that name. */
  predicate IsLuckyWord(s: string, files: Files) {
    NeedsShellQuotes(s) && IsOneWord(s) && |LiveWords(s)| == 1 && files(LiveWords(s)[0]) == [s]
  }

  /** Unquoted text that is read as itself. */
  predicate Stays(s: string, files: Files) {
    IsKeptWord(s, files) || IsLuckyWord(s, files)
  }

  /**
   Groups tokens into OR lists, which `;` and newline separate. `done` holds the
   commands of the list being read and `words` those of its last command.
   */
  function Parse(ts: seq<Token>, done: OrList := [], words: Command := []): Option<seq<OrList>>
    decreases |ts|
  {
    if ts == [] then
      if words != [] then Some([done + [words]]) else if done == [] then Some([]) else None
    else match ts[0]
      case Word(w) => Parse(ts[1..], done, words + [w])
      case OrIf => if words == [] then None else Parse(ts[1..], done + [words], [])
      case Semi => if words == [] then None else AddList(done + [words], Parse(ts[1..]))
      case Newline => if words == [] then Parse(ts[1..], done, []) else AddList(done + [words], Parse(ts[1..]))
  }

  function AddList(list: OrList, r: Option<seq<OrList>>): Option<seq<OrList>> {
    match r
    case None => None
    case Some(lists) => Some([list] + lists)
  }

  // ---------- execution ----------

  /** The exit status of an external command, given the commands run before it. */
  type Outcomes = (seq<Command>, Command) -> int

  datatype Shell = Shell(errexit: bool, trace: seq<Command>, status: int)

  function RunCommand(c: Command, sh: Shell, outcomes: Outcomes): Shell {
    if c == ["set", "-e"] then sh.(errexit := true, status := 0)
    else if c == ["set", "-o", "pipefail"] || c == ["true"] || (c != [] && c[0] == "echo") then sh.(status := 0)
    else sh.(trace := sh.trace + [c], status := outcomes(sh.trace, c))
  }

  function RunOrList(list: OrList, sh: Shell, outcomes: Outcomes): Shell {
    if list == [] then sh
    else
      var first := RunCommand(list[0], sh, outcomes);
      if first.status == 0 || |list| == 1 then first else RunOrList(list[1..], first, outcomes)
  }

  /**
   Runs OR lists in order. Under `set -e` a list that fails ends the shell: only
   the last command of an OR list can make the list fail.
   */
  function Run(lists: seq<OrList>, sh: Shell, outcomes: Outcomes): Shell {
    if lists == [] then sh
    else
      var next := RunOrList(lists[0], sh, outcomes);
      if next.errexit && next.status != 0 then next else Run(lists[1..], next, outcomes)
  }

  // ---------- reading back printed text ----------

  /** What can follow a word without becoming part of it. */
  predicate Terminated(rest: string) {
    rest == "" || EndsWord(rest[0])
  }

  /** `text` is read as one word, `word`, wherever it is followed by a terminator. */
  ghost predicate Denotes(text: string, word: string, files: Files) {
    forall rest :: Terminated(rest) ==> Lex(text + rest, files) == Prepend([Word(word)], Lex(rest, files))
  }

  lemma MoveAppend(mode: Mode, a: string, b: string)
    requires NextMove(mode, a).Go? && !(mode == InDouble && a == "\\")
    ensures NextMove(mode, a + b) == NextMove(mode, a) && (a + b)[0] == a[0]
    ensures (a + b)[NextMove(mode, a).used..] == a[NextMove(mode, a).used..] + b
  {
    assert |a| > 1 ==> (a + b)[1] == a[1] && (a + b)[1..2] == a[1..2];
    assert (a + b)[..1] == a[..1];
  }

  lemma LoneBackslash()
    ensures Scan(InDouble, "\\") == Unreadable
  {
    assert "\\"[1..] == "" && Scan(InDouble, "") == Unreadable;
  }

  lemma ScanGo(mode: Mode, s: string)
    requires NextMove(mode, s).Go?
    ensures var Go(next, used, out) := NextMove(mode, s);
            && Scan(mode, s) == Emit(out, Scan(next, s[used..]))
            && IsLive(mode, s) == ((mode == Unquoted && IsPattern(s[0])) || IsLive(next, s[used..]))
  {
  }

  /** What scanning reads does not depend on what follows a terminator. */
  lemma {:induction false} ScanAppend(mode: Mode, a: string, b: string)
    requires Scan(mode, a).Reading? && Terminated(b)
    ensures Scan(mode, a + b) == Reading(Scan(mode, a).word, Scan(mode, a).rest + b)
    ensures IsLive(mode, a + b) == IsLive(mode, a)
    decreases |a|
  {
    match NextMove(mode, a)
    case Stop => NothingBefore(b);
    case Go(next, used, out) =>
      LoneBackslash();
      ScanGo(mode, a);
      MoveAppend(mode, a, b);
      ScanGo(mode, a + b);
      ScanAppend(next, a[used..], b);
  }

  /** Nor does what is read as tokens. */
  lemma {:induction false} LexAppend(a: string, b: string, files: Files)
    requires Lex(a, files).Some? && Terminated(b)
    ensures Lex(a + b, files) == Prepend(Lex(a, files).value, Lex(b, files))
    ensures LiveWords(a + b) == LiveWords(a) + LiveWords(b)
    decreases |a|
  {
    if a == "" {
      NothingBefore(b);
      PrependNothing(Lex(b, files));
      NothingBefore(LiveWords(b));
    } else if IsBlank(a[0]) || a[0] == '\n' || a[0] == ';' {
      assert (a + b)[1..] == a[1..] + b;
      LexAppend(a[1..], b, files);
      if !IsBlank(a[0]) {
        PrependTwice([if a[0] == ';' then Semi else Newline], Lex(a[1..], files).value, Lex(b, files));
      }
    } else if a[0] == '|' {
      assert (a + b)[2..] == a[2..] + b;
      LexAppend(a[2..], b, files);
      PrependTwice([OrIf], Lex(a[2..], files).value, Lex(b, files));
    } else {
      LexAppendWord(a, b, files);
    }
  }

  lemma {:induction false} LexAppendWord(a: string, b: string, files: Files)
    requires Lex(a, files).Some? && Terminated(b)
    requires a != "" && !EndsWord(a[0]) && a[0] != '#' && a[0] != '~'
    ensures Lex(a + b, files) == Prepend(Lex(a, files).value, Lex(b, files))
    ensures LiveWords(a + b) == LiveWords(a) + LiveWords(b)
    decreases |a|, 0
  {
    ScanShrinks(Unquoted, a);
    var Reading(word, rest) := Scan(Unquoted, a);
    var raw := a[..|a| - |rest|];
    ScanAppend(Unquoted, a, b);
    assert (a + b)[..|a + b| - |rest + b|] == raw && (a + b)[0] == a[0];
    LexAppend(rest, b, files);
    FirstOfText(a, files);
    FirstOfText(a + b, files);
    PrependTwice(WordTokens(Fields(raw, word, IsLive(Unquoted, a), files)), Lex(rest, files).value, Lex(b, files));
    ConcatAssociates(if IsLive(Unquoted, a) then [raw] else [], LiveWords(rest), LiveWords(b));
  }

  /** The first word of a text and the rest. */
  lemma FirstOfText(s: string, files: Files)
    requires s != "" && !EndsWord(s[0]) && s[0] != '#' && s[0] != '~' && Scan(Unquoted, s).Reading?
    ensures |Scan(Unquoted, s).rest| < |s|
    ensures var Reading(word, rest) := Scan(Unquoted, s);
            var raw, live := s[..|s| - |rest|], IsLive(Unquoted, s);
            && Lex(s, files) == Prepend(WordTokens(Fields(raw, word, live, files)), Lex(rest, files))
            && LiveWords(s) == (if live then [raw] else []) + LiveWords(rest)
  {
    ScanShrinks(Unquoted, s);
  }

  /** A text that is one word on its own is that word before any terminator. */
  lemma AloneDenotes(text: string, word: string, files: Files)
    requires Lex(text, files) == Some([Word(word)])
    ensures Denotes(text, word, files)
  {
    forall rest | Terminated(rest) ensures Lex(text + rest, files) == Prepend([Word(word)], Lex(rest, files)) {
      LexAppend(text, rest, files);
    }
  }

  lemma ScanMove(mode: Mode, head: string, tail: string, next: Mode, out: string)
    requires NextMove(mode, head + tail) == Go(next, |head|, out)
    ensures Scan(mode, head + tail) == Emit(out, Scan(next, tail))
    ensures IsLive(mode, head + tail) <==> (mode == Unquoted && IsPattern((head + tail)[0])) || IsLive(next, tail)
  {
    assert (head + tail)[|head|..] == tail;
  }

  lemma {:induction false} ScanRaw(w: string, rest: string)
    requires AllRaw(w) && Terminated(rest)
    ensures Scan(Unquoted, w + rest) == Reading(w, rest)
    ensures IsLive(Unquoted, w + rest) <==> HasPattern(w)
  {
    if w == "" {
      assert w + rest == rest;
    } else {
      assert w + rest == w[..1] + (w[1..] + rest);
      ScanRaw(w[1..], rest);
      ScanMove(Unquoted, w[..1], w[1..] + rest, Unquoted, w[..1]);
      assert w == w[..1] + w[1..];
      PatternSplit(w);
    }
  }

  lemma PatternSplit(w: string)
    requires w != ""
    ensures HasPattern(w) <==> IsPattern(w[0]) || HasPattern(w[1..])
  {
    if HasPattern(w) {
      var i :| 0 <= i < |w| && IsPattern(w[i]);
      assert i > 0 ==> IsPattern(w[1..][i - 1]);
    }
    if HasPattern(w[1..]) {
      var i :| 0 <= i < |w[1..]| && IsPattern(w[1..][i]);
      assert IsPattern(w[i + 1]);
    }
  }

  /** Scanned text without another word behind it. */
  lemma LexScanned(text: string, word: string, files: Files)
    requires text != "" && !EndsWord(text[0]) && text[0] != '#' && text[0] != '~'
    requires Scan(Unquoted, text) == Reading(word, "")
    ensures Lex(text, files) == Some(WordTokens(Fields(text, word, IsLive(Unquoted, text), files)))
  {
    assert text[..|text| - |""|] == text;
    LexNothing(files);
    PrependToNothing(WordTokens(Fields(text, word, IsLive(Unquoted, text), files)));
  }

  lemma LexNothing(files: Files)
    ensures Lex("", files) == Some([])
  {
  }

  lemma OneWordToken(word: string)
    ensures WordTokens([word]) == [Word(word)]
  {
    assert [word][1..] == [];
    assert WordTokens([]) == [];
  }

  lemma KeptWordDenotesItself(w: string, files: Files)
    requires IsKeptWord(w, files)
    ensures Denotes(w, w, files)
  {
    NothingAfter(w);
    ScanRaw(w, "");
    LexScanned(w, w, files);
    OneWordToken(w);
    AloneDenotes(w, w, files);
  }

  lemma PlainWordDenotesItself(w: string, files: Files)
    requires IsPlainWord(w)
    ensures Denotes(w, w, files)
  {
    KeptWordDenotesItself(w, files);
  }

  lemma LexWord(text: string, word: string, rest: string, files: Files)
    requires Denotes(text, word, files) && Terminated(rest)
    ensures Lex(text + rest, files) == Prepend([Word(word)], Lex(rest, files))
  {
  }

  lemma LexLastWord(text: string, word: string, files: Files)
    requires Denotes(text, word, files)
    ensures Lex(text, files) == Some([Word(word)])
  {
    LexWord(text, word, "", files);
    assert text + "" == text && Lex("", files) == Some([]);
    PrependToNothing([Word(word)]);
  }

  lemma LexBlank(rest: string, files: Files)
    ensures Lex(" " + rest, files) == Lex(rest, files)
  {
  }

  lemma LexWordAndMore(text: string, word: string, tail: string, ts: seq<Token>, r: Option<seq<Token>>, files: Files)
    requires Denotes(text, word, files) && Lex(tail, files) == Prepend(ts, r)
    ensures Lex(text + " " + tail, files) == Prepend([Word(word)] + ts, r)
  {
    var afterFirst := " " + tail;
    assert text + " " + tail == text + afterFirst;
    LexWord(text, word, afterFirst, files);
    LexBlank(tail, files);
    PrependTwice([Word(word)], ts, r);
  }

  function WordTokens(words: Command): seq<Token> {
    if words == [] then [] else [Word(words[0])] + WordTokens(words[1..])
  }

  ghost predicate AllDenote(texts: seq<string>, words: Command, files: Files) {
    |texts| == |words| && forall i | 0 <= i < |words| :: Denotes(texts[i], words[i], files)
  }

  /** Words printed with single blanks between them are read back as those words. */
  lemma {:induction false} LexWords(texts: seq<string>, words: Command, rest: string, files: Files)
    requires AllDenote(texts, words, files) && Terminated(rest)
    ensures Lex(Join(texts, " ") + rest, files) == Prepend(WordTokens(words), Lex(rest, files))
  {
    if texts == [] {
      NothingBefore(rest);
      PrependNothing(Lex(rest, files));
    } else if |texts| == 1 {
      LexWord(texts[0], words[0], rest, files);
      assert WordTokens(words) == [Word(words[0])];
    } else {
      LexWords(texts[1..], words[1..], rest, files);
      JoinHead(texts, " ", rest);
      LexWordAndMore(texts[0], words[0], Join(texts[1..], " ") + rest, WordTokens(words[1..]), Lex(rest, files), files);
    }
  }

  lemma ParseWord(w: string, ts: seq<Token>, done: OrList, before: Command)
    ensures Parse([Word(w)] + ts, done, before) == Parse(ts, done, before + [w])
  {
    assert ([Word(w)] + ts)[1..] == ts;
  }

  lemma {:induction false} ParseWords(words: Command, ts: seq<Token>, done: OrList, before: Command)
    ensures Parse(WordTokens(words) + ts, done, before) == Parse(ts, done, before + words)
    decreases |words|
  {
    if words == [] {
      NothingBefore(ts);
      NothingAfter(before);
    } else {
      ConcatAssociates([Word(words[0])], WordTokens(words[1..]), ts);
      ParseWord(words[0], WordTokens(words[1..]) + ts, done, before);
      ParseWords(words[1..], ts, done, before + [words[0]]);
      MoveHead(before, words);
    }
  }

  function ListTokens(list: OrList): seq<Token> {
    if list == [] then []
    else if |list| == 1 then WordTokens(list[0])
    else WordTokens(list[0]) + ([OrIf] + ListTokens(list[1..]))
  }

  predicate IsOrList(list: OrList) {
    list != [] && forall i | 0 <= i < |list| :: list[i] != []
  }

  /** The tokens that end an OR list, and what follows them. */
  predicate EndsList(ts: seq<Token>) {
    ts == [] || ts[0] == Semi || ts[0] == Newline
  }

  function AfterEnd(ts: seq<Token>): seq<Token>
    requires EndsList(ts)
  {
    if ts == [] then [] else ts[1..]
  }

  lemma ParseEnd(ts: seq<Token>, done: OrList, words: Command)
    requires EndsList(ts) && words != []
    ensures Parse(ts, done, words) == AddList(done + [words], Parse(AfterEnd(ts)))
  {
    if ts == [] {
      assert [done + [words]] + [] == [done + [words]];
    }
  }

  lemma ParseOrIf(ts: seq<Token>, done: OrList, words: Command)
    requires words != []
    ensures Parse([OrIf] + ts, done, words) == Parse(ts, done + [words], [])
  {
    assert ([OrIf] + ts)[1..] == ts;
  }

  /** The printed tokens of an OR list are grouped back into that list. */
  lemma {:induction false} ParseList(list: OrList, ts: seq<Token>, done: OrList)
    requires IsOrList(list) && EndsList(ts)
    ensures Parse(ListTokens(list) + ts, done, []) == AddList(done + list, Parse(AfterEnd(ts)))
    decreases |list|
  {
    NothingBefore(list[0]);
    if |list| == 1 {
      ParseWords(list[0], ts, done, []);
      ParseEnd(ts, done, list[0]);
      assert list == [list[0]];
    } else {
      var more := ListTokens(list[1..]);
      ConcatAssociates(WordTokens(list[0]), [OrIf] + more, ts);
      ConcatAssociates([OrIf], more, ts);
      ParseWords(list[0], [OrIf] + (more + ts), done, []);
      ParseOrIf(more + ts, done, list[0]);
      ParseList(list[1..], ts, done + [list[0]]);
      MoveHead(done, list);
    }
  }

  /** The tokens of one line: its lists with `;` between them. */
  function LineTokens(lists: seq<OrList>): seq<Token> {
    if lists == [] then []
    else if |lists| == 1 then ListTokens(lists[0])
    else ListTokens(lists[0]) + ([Semi] + LineTokens(lists[1..]))
  }

  function AddLists(lists: seq<OrList>, r: Option<seq<OrList>>): Option<seq<OrList>> {
    match r
    case None => None
    case Some(more) => Some(lists + more)
  }

  lemma AddListAndMore(lists: seq<OrList>, r: Option<seq<OrList>>)
    requires lists != []
    ensures AddList(lists[0], AddLists(lists[1..], r)) == AddLists(lists, r)
  {
    if r.Some? {
      ConcatAssociates([lists[0]], lists[1..], r.value);
      assert lists == [lists[0]] + lists[1..];
    }
  }

  lemma {:induction false} ParseLine(lists: seq<OrList>, ts: seq<Token>)
    requires forall i | 0 <= i < |lists| :: IsOrList(lists[i])
    requires ts == [] || ts[0] == Newline
    ensures Parse(LineTokens(lists) + ts) == AddLists(lists, Parse(AfterEnd(ts)))
    decreases |lists|
  {
    var after := Parse(AfterEnd(ts));
    if lists == [] {
      NothingBefore(ts);
      AddListsNothing(after);
    } else {
      NothingBefore(lists[0]);
      AddListAndMore(lists, after);
      if |lists| == 1 {
        assert lists[1..] == [];
        AddListsNothing(after);
        ParseList(lists[0], ts, []);
      } else {
        var more := LineTokens(lists[1..]) + ts;
        ConcatAssociates(ListTokens(lists[0]), [Semi] + LineTokens(lists[1..]), ts);
        ConcatAssociates([Semi], LineTokens(lists[1..]), ts);
        assert ([Semi] + more)[1..] == more;
        ParseList(lists[0], [Semi] + more, []);
        ParseLine(lists[1..], ts);
      }
    }
  }

  lemma AddListsNothing(r: Option<seq<OrList>>)
    ensures AddLists([], r) == r
  {
    if r.Some? { assert [] + r.value == r.value; }
  }

  /** A line that, before a newline or the end, lexes to the tokens of `lists`. */
  ghost predicate LineMeans(line: string, lists: seq<OrList>, files: Files) {
    && (forall i | 0 <= i < |lists| :: IsOrList(lists[i]))
    && forall rest | rest == "" || rest[0] == '\n' ::
         Lex(line + rest, files) == Prepend(LineTokens(lists), Lex(rest, files))
  }

  function ParseScript(text: string, files: Files): Option<seq<OrList>> {
    match Lex(text, files)
    case None => None
    case Some(ts) => Parse(ts)
  }

  function Flatten(meanings: seq<seq<OrList>>): seq<OrList> {
    if meanings == [] then [] else meanings[0] + Flatten(meanings[1..])
  }

  ghost predicate LinesMean(lines: seq<string>, meanings: seq<seq<OrList>>, files: Files) {
    |lines| == |meanings| && forall i | 0 <= i < |lines| :: LineMeans(lines[i], meanings[i], files)
  }

  function ScriptTokens(meanings: seq<seq<OrList>>): seq<Token> {
    if meanings == [] then []
    else if |meanings| == 1 then LineTokens(meanings[0])
    else LineTokens(meanings[0]) + ([Newline] + ScriptTokens(meanings[1..]))
  }

  lemma {:induction false} LexScript(lines: seq<string>, meanings: seq<seq<OrList>>, files: Files)
    requires LinesMean(lines, meanings, files)
    ensures Lex(Join(lines, "\n"), files) == Some(ScriptTokens(meanings))
    decreases |lines|
  {
    if lines == [] {
    } else if |lines| == 1 {
      assert LineMeans(lines[0], meanings[0], files);
      assert lines[0] + "" == lines[0] && Lex("", files) == Some([]);
      PrependToNothing(LineTokens(meanings[0]));
    } else {
      var more := Join(lines[1..], "\n");
      LexScript(lines[1..], meanings[1..], files);
      LexLineAndMore(lines[0], meanings[0], more, ScriptTokens(meanings[1..]), files);
    }
  }

  lemma LexLineAndMore(line: string, lists: seq<OrList>, more: string, ts: seq<Token>, files: Files)
    requires LineMeans(line, lists, files) && Lex(more, files) == Some(ts)
    ensures Lex(line + "\n" + more, files) == Some(LineTokens(lists) + ([Newline] + ts))
  {
    var rest := "\n" + more;
    assert line + "\n" + more == line + rest;
    assert rest[1..] == more;
  }

  lemma {:induction false} ParseScriptTokens(meanings: seq<seq<OrList>>)
    requires forall i, j | 0 <= i < |meanings| && 0 <= j < |meanings[i]| :: IsOrList(meanings[i][j])
    ensures Parse(ScriptTokens(meanings)) == Some(Flatten(meanings))
    decreases |meanings|
  {
    if meanings == [] {
    } else if |meanings| == 1 {
      ParseLine(meanings[0], []);
      assert LineTokens(meanings[0]) + [] == LineTokens(meanings[0]);
    } else {
      ParseLine(meanings[0], [Newline] + ScriptTokens(meanings[1..]));
      ParseScriptTokens(meanings[1..]);
    }
  }

  /** A script of readable lines is read as the concatenation of their lists. */
  lemma ScriptMeans(lines: seq<string>, meanings: seq<seq<OrList>>, files: Files)
    requires LinesMean(lines, meanings, files)
    ensures ParseScript(Join(lines, "\n"), files) == Some(Flatten(meanings))
  {
    forall i, j | 0 <= i < |meanings| && 0 <= j < |meanings[i]| ensures IsOrList(meanings[i][j]) {
      assert LineMeans(lines[i], meanings[i], files);
    }
    LexScript(lines, meanings, files);
    ParseScriptTokens(meanings);
  }

  // ---------- what text can be read as ----------

  function TokenWords(ts: seq<Token>): seq<string> {
    if ts == [] then [] else (if ts[0].Word? then [ts[0].text] else []) + TokenWords(ts[1..])
  }

  lemma {:induction false} WordsOfWords(words: Command, ts: seq<Token>)
    ensures TokenWords(WordTokens(words) + ts) == words + TokenWords(ts)
    decreases |words|
  {
    if words == [] {
      NothingBefore(ts);
      NothingBefore(TokenWords(ts));
    } else {
      var later := WordTokens(words[1..]) + ts;
      ConcatAssociates([Word(words[0])], WordTokens(words[1..]), ts);
      WordsOfWords(words[1..], ts);
      assert ([Word(words[0])] + later)[1..] == later;
      ConcatAssociates([words[0]], words[1..], TokenWords(ts));
      assert words == [words[0]] + words[1..];
    }
  }

  function ListWords(list: OrList): seq<string> {
    if list == [] then [] else list[0] + ListWords(list[1..])
  }

  function AllWords(lists: seq<OrList>): seq<string> {
    if lists == [] then [] else ListWords(lists[0]) + AllWords(lists[1..])
  }

  lemma {:induction false} ListWordsAppend(list: OrList, words: Command)
    ensures ListWords(list + [words]) == ListWords(list) + words
  {
    if list == [] {
      assert [] + [words] == [words] && [words][1..] == [];
      NothingAfter(words);
      NothingBefore(words);
    } else {
      ListWordsAppend(list[1..], words);
      assert (list + [words])[1..] == list[1..] + [words];
      ConcatAssociates(list[0], ListWords(list[1..]), words);
    }
  }

  /** Grouping neither drops, adds nor reorders words. */
  lemma {:induction false} ParseKeepsWords(ts: seq<Token>, done: OrList, words: Command)
    requires Parse(ts, done, words).Some?
    ensures AllWords(Parse(ts, done, words).value) == ListWords(done) + words + TokenWords(ts)
    decreases |ts|, 0
  {
    ListWordsAppend(done, words);
    if ts == [] {
      NothingAfter(ListWords(done) + words);
      NothingAfter(ListWords(done + [words]));
      if words != [] {
        assert [done + [words]][1..] == [];
      } else {
        assert ListWords(done) + words == [];
      }
    } else {
      var rest := ts[1..];
      match ts[0]
      case Word(w) =>
        ParseKeepsWords(rest, done, words + [w]);
        ConcatAssociates(ListWords(done), words, [w]);
        ConcatAssociates(ListWords(done) + words, [w], TokenWords(rest));
      case OrIf =>
        ParseKeepsWords(rest, done + [words], []);
        NothingAfter(ListWords(done) + words);
        NothingBefore(TokenWords(rest));
      case Semi => EndKeepsWords(rest, done, words);
      case Newline =>
        if words == [] {
          ParseKeepsWords(rest, done, []);
          NothingBefore(TokenWords(rest));
        } else {
          EndKeepsWords(rest, done, words);
        }
    }
  }

  lemma EndKeepsWords(rest: seq<Token>, done: OrList, words: Command)
    requires Parse(rest).Some?
    ensures AllWords(AddList(done + [words], Parse(rest)).value) == ListWords(done) + words + ([] + TokenWords(rest))
    decreases |rest|, 1
  {
    ParseKeepsWords(rest, [], []);
    ListWordsAppend(done, words);
    var list, lists := done + [words], Parse(rest).value;
    assert ([list] + lists)[1..] == lists;
    NothingBefore(TokenWords(rest));
  }

  /** A move that passes the end of `s` takes the blank behind it into the word. */
  lemma MoveTakesBlank(mode: Mode, s: string, more: string)
    requires ' ' !in s && NextMove(mode, s + (" " + more)).Go? && NextMove(mode, s + (" " + more)).used > |s|
    ensures ' ' in NextMove(mode, s + (" " + more)).out
  {
    assert (s + (" " + more))[|s|] == ' ';
  }

  lemma MoveWithin(mode: Mode, s: string, text: string, k: nat)
    requires s <= text && NextMove(mode, text).Go? && k == NextMove(mode, text).used <= |s|
    requires NextMove(mode, text).mode == Unquoted && AllRaw(s[k..]) && |NextMove(mode, text).out| == k
    ensures mode == Unquoted && AllRaw(s)
  {
    assert text[..k] == s[..k];
    AllRawSplit(s, k);
  }

  lemma RawBehindMove(mode: Mode, s: string, more: string)
    requires Scan(mode, s + (" " + more)).Reading?
    requires var m := NextMove(mode, s + (" " + more));
             m.Go? && m.mode == Unquoted && m.used <= |s| && AllRaw(s[m.used..])
    ensures |Scan(mode, s + (" " + more)).word| < |s| || (mode == Unquoted && AllRaw(s))
  {
    var text := s + (" " + more);
    var Go(_, used, out) := NextMove(mode, text);
    assert text[used..] == s[used..] + (" " + more);
    ScanRaw(s[used..], " " + more);
    if |out| == used {
      MoveWithin(mode, s, text, used);
    }
  }

  /** Unquoted text up to a blank is read as itself only if all of it stays. */
  lemma {:induction false} ScanUpToBlank(mode: Mode, s: string, more: string)
    requires ' ' !in s && Scan(mode, s + (" " + more)).Reading?
    ensures var word := Scan(mode, s + (" " + more)).word;
            ' ' in word || |word| < |s| || (mode == Unquoted && AllRaw(s))
    decreases |s|
  {
    var text := s + (" " + more);
    match NextMove(mode, text)
    case Stop =>
    case Go(next, used, out) =>
      if used <= |s| {
        assert text[used..] == s[used..] + (" " + more);
        assert Scan(mode, text).word == out + Scan(next, s[used..] + (" " + more)).word;
        ScanUpToBlank(next, s[used..], more);
        if next == Unquoted && AllRaw(s[used..]) {
          RawBehindMove(mode, s, more);
        }
      } else {
        MoveTakesBlank(mode, s, more);
      }
  }

  /** `raw` brings in a name that needs quotes, though it is not just what that name reads as. */
  predicate IsStray(raw: string, name: string, files: Files) {
    NeedsShellQuotes(name) && name in files(raw) && !(IsOneWord(name) && LiveWords(name) == [raw])
  }

  /** No live word of the text does. */
  predicate HasNoStray(text: string, name: string, files: Files) {
    forall raw | raw in LiveWords(text) :: !IsStray(raw, name, files)
  }

  predicate AllRooted(names: seq<string>) {
    forall k | 0 <= k < |names| :: names[k] != "" && names[k][0] == '/'
  }

  /** What an absolute pattern of the text matches is absolute. */
  predicate IsRooted(text: string, files: Files) {
    forall raw | raw in LiveWords(text) :: raw != "" && raw[0] == '/' ==> AllRooted(files(raw))
  }

  lemma RawUnlessQuotes(s: string)
    requires s != ""
    ensures IsRawWord(s) <==> !NeedsShellQuotes(s)
    ensures IsPlainWord(s) <==> IsRawWord(s) && !HasPattern(s)
  {
  }

  /** A word read from text is shorter than the text, unless the text is that word or the files bring it in. */
  lemma {:induction false} WordsAreShort(s: string, w: string, files: Files)
    requires Lex(s, files).Some? && Word(w) in Lex(s, files).value
    requires forall raw | raw in LiveWords(s) :: w !in files(raw)
    ensures |w| <= |s| && (|w| == |s| ==> IsRawWord(s))
    decreases |s|
  {
    if IsBlank(s[0]) || s[0] == '\n' || s[0] == ';' {
      WordsAreShort(s[1..], w, files);
    } else if s[0] == '|' {
      WordsAreShort(s[2..], w, files);
    } else {
      FirstOfText(s, files);
      var Reading(word, rest) := Scan(Unquoted, s);
      var raw := s[..|s| - |rest|];
      var fields := Fields(raw, word, IsLive(Unquoted, s), files);
      if Word(w) in WordTokens(fields) {
        TokenOfWords(fields, w);
        ScannedIsShort(s);
      } else {
        WordsAreShort(rest, w, files);
      }
    }
  }

  lemma ScannedIsShort(s: string)
    requires Scan(Unquoted, s).Reading? && s != "" && !EndsWord(s[0]) && s[0] != '#' && s[0] != '~'
    ensures var word := Scan(Unquoted, s).word; |word| <= |s| && (|word| == |s| ==> IsRawWord(s))
  {
    ScanShrinks(Unquoted, s);
    if !AllRaw(s) {
      ScanDropsSpecials(s);
    }
  }

  lemma {:induction false} TokenOfWords(words: Command, w: string)
    requires Word(w) in WordTokens(words)
    ensures w in words
  {
    if Word(w) != Word(words[0]) {
      TokenOfWords(words[1..], w);
    }
  }

  /** The first word of text that starts with raw text is what the files make of it. */
  lemma FirstFields(p: string, rest: string, files: Files)
    requires IsRawWord(p) && Terminated(rest) && Lex(p + rest, files).Some?
    ensures Lex(rest, files).Some?
    ensures TokenWords(Lex(p + rest, files).value) ==
            Fields(p, p, HasPattern(p), files) + TokenWords(Lex(rest, files).value)
  {
    ScanRaw(p, rest);
    assert (p + rest)[..|p|] == p;
    WordsOfWords(Fields(p, p, HasPattern(p), files), Lex(rest, files).value);
  }

  lemma {:induction false} NothingToRead(s: string, files: Files, others: Files)
    requires Lex(s, files) == Some([])
    ensures Lex(s, others) == Some([]) && LiveWords(s) == []
    decreases |s|
  {
    if s != "" {
      OthersAreTokens(s, files);
      NothingToRead(s[1..], files, others);
    }
  }

  lemma FieldsAreTokens(raw: string, word: string, live: bool, files: Files)
    ensures var fields := Fields(raw, word, live, files);
            |WordTokens(fields)| >= 1 && WordTokens(fields)[0] == Word(fields[0])
  {
  }

  lemma OthersAreTokens(s: string, files: Files)
    requires s != ""
    ensures Lex(s, files) == Some([]) ==> IsBlank(s[0])
  {
    if !EndsWord(s[0]) && Scan(Unquoted, s).Reading? {
      ScanShrinks(Unquoted, s);
      var Reading(word, rest) := Scan(Unquoted, s);
      FieldsAreTokens(s[..|s| - |rest|], word, IsLive(Unquoted, s), files);
    }
  }

  /** Text that is one word is what the files make of it. */
  lemma {:induction false} OneWordReads(s: string, files: Files)
    requires IsOneWord(s)
    ensures |LiveWords(s)| <= 1
    ensures var word := Lex(s, NO_FILES).value[0].text;
            Lex(s, files) ==
            Some(if LiveWords(s) == [] then [Word(word)] else WordTokens(Fields(LiveWords(s)[0], word, true, files)))
    decreases |s|
  {
    if IsBlank(s[0]) {
      OneWordReads(s[1..], files);
    } else {
      ScanShrinks(Unquoted, s);
      var Reading(word, rest) := Scan(Unquoted, s);
      OneWordToken(word);
      var raw, live := s[..|s| - |rest|], IsLive(Unquoted, s);
      NothingToRead(rest, NO_FILES, files);
      NothingAfter(if live then [raw] else []);
      PrependToNothing(WordTokens(Fields(raw, word, live, files)));
      PrependToNothing([Word(word)]);
    }
  }

  lemma StartsWithWord(s: string, w: string, files: Files)
    requires Lex(s, files) == Some([Word(w)])
    ensures s != ""
    ensures IsBlank(s[0]) || (!EndsWord(s[0]) && s[0] != '#' && s[0] != '~' && Scan(Unquoted, s).Reading?)
  {
    if s[0] == '\n' || s[0] == ';' || s[0] == '|' {
      FirstSeparator(s, files);
    }
  }

  lemma FirstSeparator(s: string, files: Files)
    requires s != "" && (s[0] == '\n' || s[0] == ';' || s[0] == '|') && Lex(s, files).Some?
    ensures Lex(s, files).value != [] && !Lex(s, files).value[0].Word?
  {
  }

  lemma {:induction false} OneFieldIsOneWord(s: string, w: string, files: Files)
    requires Lex(s, files) == Some([Word(w)])
    ensures IsOneWord(s)
    decreases |s|
  {
    StartsWithWord(s, w, files);
    if IsBlank(s[0]) {
      OneFieldIsOneWord(s[1..], w, files);
    } else {
      FirstOfText(s, files);
      FirstOfText(s, NO_FILES);
      var Reading(word, rest) := Scan(Unquoted, s);
      var raw := s[..|s| - |rest|];
      FieldsAreTokens(raw, word, IsLive(Unquoted, s), files);
      assert |WordTokens(Fields(raw, word, IsLive(Unquoted, s), files)) + Lex(rest, files).value| == 1;
      assert Lex(rest, files).value == [];
      NothingToRead(rest, files, NO_FILES);
      OneWordToken(word);
      PrependToNothing([Word(word)]);
    }
  }

  lemma {:induction false} WordsOfTokens(words: Command)
    ensures TokenWords(WordTokens(words)) == words
  {
    NothingAfter(WordTokens(words));
    WordsOfWords(words, []);
    NothingAfter(words);
  }

  lemma LuckyWordDenotesItself(w: string, files: Files)
    requires IsLuckyWord(w, files)
    ensures Denotes(w, w, files)
  {
    OneWordReads(w, files);
    OneWordToken(w);
    AloneDenotes(w, w, files);
  }

  lemma StayingDenotesItself(w: string, files: Files)
    requires Stays(w, files)
    ensures Denotes(w, w, files)
  {
    if IsKeptWord(w, files) { KeptWordDenotesItself(w, files); } else { LuckyWordDenotesItself(w, files); }
  }

  /** Text that needs quotes is not read as itself but by luck. */
  lemma ReadAsItself(p: string, files: Files)
    requires NeedsShellQuotes(p) && Lex(p, files) == Some([Word(p)])
    ensures IsLuckyWord(p, files)
  {
    RawUnlessQuotes(p);
    OneFieldIsOneWord(p, p, files);
    OneWordReads(p, files);
    var word := Lex(p, NO_FILES).value[0].text;
    if LiveWords(p) == [] || files(LiveWords(p)[0]) == [] {
      OneWordToken(word);
      WordsAreShort(p, p, NO_FILES);
    } else {
      WordsOfTokens(files(LiveWords(p)[0]));
      OneWordToken(p);
      WordsOfTokens([p]);
    }
  }

  /** Text that needs none is if it is no pattern, or one that matches nothing else. */
  lemma RawReadAsItself(p: string, files: Files)
    requires IsRawWord(p) && Lex(p, files) == Some([Word(p)])
    ensures IsKeptWord(p, files)
  {
    NothingAfter(p);
    OneWordToken(p);
    WordsOfTokens([p]);
    FirstFields(p, "", files);
    assert Fields(p, p, HasPattern(p), files) + [] == [p];
  }

  /** A text whose only word is itself stays, or is lucky. */
  lemma WordIsKept(p: string, files: Files)
    requires p != "" && Lex(p, files).Some? && TokenWords(Lex(p, files).value) == [p] && HasNoStray(p, p, files)
    ensures Stays(p, files)
  {
    RawUnlessQuotes(p);
    WordOfTokens(Lex(p, files).value, p);
    if !NeedsShellQuotes(p) {
      NothingAfter(p);
      FirstFields(p, "", files);
      assert Fields(p, p, HasPattern(p), files) + [] == [p];
    } else if raw :| raw in LiveWords(p) && p in files(raw) {
      assert !IsStray(raw, p, files);
      OneWordReads(p, files);
      WordsOfTokens(files(raw));
    } else {
      WordsAreShort(p, p, files);
    }
  }

  lemma {:induction false} WordOfTokens(ts: seq<Token>, w: string)
    requires w in TokenWords(ts)
    ensures Word(w) in ts
  {
    if ts[0] != Word(w) {
      WordOfTokens(ts[1..], w);
    }
  }

  /** The same for a path that is the first word of a text, with a word behind it that is no path. */
  lemma FirstPathIsKept(p: string, more: string, files: Files)
    requires p != "" && p[0] == '/' && ' ' !in p
    requires IsRooted(p + (" " + more), files) && HasNoStray(p + (" " + more), p, files)
    requires Lex(p + (" " + more), files).Some?
    requires var words := TokenWords(Lex(p + (" " + more), files).value);
             |words| >= 2 && words[0] == p && words[1] != "" && words[1][0] != '/'
    ensures Stays(p, files)
  {
    var text := p + (" " + more);
    assert text[0] == '/';
    var raw, words := FirstRead(text, files);
    var fields := Fields(raw, Scan(Unquoted, text).word, IsLive(Unquoted, text), files);
    assert fields[0] == p && raw[0] == '/';
    if IsLive(Unquoted, text) && files(raw) != [] {
      SecondIsRooted(fields, words);
      MatchIsKept(p, more, raw, files);
    } else {
      ScannedPathIsKept(p, more, raw, files);
    }
  }

  /** The first word of a text as it is written, and the words behind what it becomes. */
  lemma FirstRead(text: string, files: Files) returns (raw: string, words: seq<string>)
    requires text != "" && text[0] == '/' && Lex(text, files).Some?
    ensures IsFirst(raw, text) && raw != "" && (IsLive(Unquoted, text) ==> raw in LiveWords(text))
    ensures TokenWords(Lex(text, files).value) ==
            Fields(raw, Scan(Unquoted, text).word, IsLive(Unquoted, text), files) + words
  {
    FirstOfText(text, files);
    ScanIsSuffix(Unquoted, text);
    var Reading(word, rest) := Scan(Unquoted, text);
    raw, words := text[..|text| - |rest|], TokenWords(Lex(rest, files).value);
    WordsOfWords(Fields(raw, word, IsLive(Unquoted, text), files), Lex(rest, files).value);
  }

  lemma SecondIsRooted(fields: seq<string>, others: seq<string>)
    requires fields != [] && AllRooted(fields)
    ensures |fields| > 1 ==> var second := (fields + others)[1]; second != "" && second[0] == '/'
  {
  }

  predicate IsFirst(raw: string, text: string) {
    Scan(Unquoted, text).Reading? && text == raw + Scan(Unquoted, text).rest
  }

  lemma RawIsFirst(p: string, more: string, raw: string)
    requires AllRaw(p) && IsFirst(raw, p + (" " + more))
    ensures raw == p && Scan(Unquoted, p + (" " + more)) == Reading(p, " " + more)
    ensures IsLive(Unquoted, p + (" " + more)) == HasPattern(p)
  {
    ScanRaw(p, " " + more);
    assert raw == (raw + (" " + more))[..|raw|] && p == (p + (" " + more))[..|p|];
  }

  lemma MatchIsKept(p: string, more: string, raw: string, files: Files)
    requires p != "" && files(raw) == [p] && !IsStray(raw, p, files) && IsFirst(raw, p + (" " + more))
    ensures Stays(p, files)
  {
    RawUnlessQuotes(p);
    if !NeedsShellQuotes(p) {
      RawIsFirst(p, more, raw);
    }
  }

  lemma ScannedPathIsKept(p: string, more: string, raw: string, files: Files)
    requires p != "" && p[0] == '/' && ' ' !in p && Scan(Unquoted, p + (" " + more)).Reading?
    requires Scan(Unquoted, p + (" " + more)).word == p
    requires IsFirst(raw, p + (" " + more)) && (IsLive(Unquoted, p + (" " + more)) ==> files(raw) == [])
    ensures IsKeptWord(p, files)
  {
    RawUnlessQuotes(p);
    ScanUpToBlank(Unquoted, p, more);
    RawIsFirst(p, more, raw);
  }

  // ---------- text without patterns ----------

  lemma {:induction false} LiveHasPattern(mode: Mode, s: string)
    requires IsLive(mode, s)
    ensures HasPattern(s)
    decreases |s|
  {
    var Go(next, used, out) := NextMove(mode, s);
    if !(mode == Unquoted && IsPattern(s[0])) {
      LiveHasPattern(next, s[used..]);
      PatternInRest(s, used);
    }
  }

  lemma PatternInRest(s: string, k: nat)
    requires k <= |s| && HasPattern(s[k..])
    ensures HasPattern(s)
  {
    var i :| 0 <= i < |s[k..]| && IsPattern(s[k..][i]);
    assert s[k + i] == s[k..][i];
  }

  lemma {:induction false} NoPatternNoLiveWord(s: string)
    requires !HasPattern(s)
    ensures LiveWords(s) == []
    decreases |s|
  {
    if s == "" {
    } else if IsBlank(s[0]) || s[0] == '\n' || s[0] == ';' {
      NoPatternBehind(s, 1);
    } else if s[0] == '|' {
      if |s| > 1 && s[1] == '|' { NoPatternBehind(s, 2); }
    } else if !EndsWord(s[0]) && Scan(Unquoted, s).Reading? {
      ScanShrinks(Unquoted, s);
      var rest := Scan(Unquoted, s).rest;
      if IsLive(Unquoted, s) { LiveHasPattern(Unquoted, s); }
      ScanIsSuffix(Unquoted, s);
      NoPatternBehind(s, |s| - |rest|);
    }
  }

  lemma {:induction false} NoPatternBehind(s: string, k: nat)
    requires 0 < k <= |s| && !HasPattern(s)
    ensures LiveWords(s[k..]) == []
    decreases |s|, 0
  {
    if HasPattern(s[k..]) { PatternInRest(s, k); }
    NoPatternNoLiveWord(s[k..]);
  }

  lemma {:induction false} ScanIsSuffix(mode: Mode, s: string)
    requires Scan(mode, s).Reading?
    ensures |Scan(mode, s).rest| <= |s| && s[|s| - |Scan(mode, s).rest|..] == Scan(mode, s).rest
    decreases |s|
  {
    match NextMove(mode, s)
    case Stop =>
    case Go(next, used, out) =>
      ScanGo(mode, s);
      ScanIsSuffix(next, s[used..]);
  }
}
