/** String operations the sources take from their standard libraries. */
module Text {

  datatype Option<+T> = None | Some(value: T)

  /** `str::replace` with a one-character pattern. */
  function ReplaceChar(s: string, c: char, with: string): string {
    if s == "" then "" else (if s[0] == c then with else [s[0]]) + ReplaceChar(s[1..], c, with)
  }

  predicate StartsWith(s: string, prefix: string) {
    |prefix| <= |s| && s[..|prefix|] == prefix
  }

  /** `str::contains` with a string pattern. */
  predicate Contains(s: string, pattern: string) {
    StartsWith(s, pattern) || (s != "" && Contains(s[1..], pattern))
  }

  function LowerChar(c: char): char {
    if 'A' <= c <= 'Z' then c - 'A' + 'a' else c
  }

  /** `str::to_ascii_lowercase`. */
  function ToAsciiLower(s: string): (r: string)
    ensures |r| == |s|
  {
    seq(|s|, i requires 0 <= i < |s| => LowerChar(s[i]))
  }

  /** Unicode `White_Space`, as `char::is_whitespace` tests it. */
  predicate IsWhitespace(c: char) {
    || '\U{9}' <= c <= '\U{d}' || c == ' ' || c == '\U{85}' || c == '\U{a0}' || c == '\U{1680}'
    || '\U{2000}' <= c <= '\U{200a}' || c == '\U{2028}' || c == '\U{2029}' || c == '\U{202f}'
    || c == '\U{205f}' || c == '\U{3000}'
  }

  /** `str::trim`. */
  function Trim(s: string): string
    decreases |s|
  {
    if s == "" then ""
    else if IsWhitespace(s[0]) then Trim(s[1..])
    else if IsWhitespace(s[|s| - 1]) then Trim(s[..|s| - 1])
    else s
  }

  /** `str::trim().is_empty()`. */
  predicate IsBlankText(s: string) {
    s == "" || (IsWhitespace(s[0]) && IsBlankText(s[1..]))
  }

  lemma {:induction false} BlankTrimsToNothing(s: string)
    ensures IsBlankText(s) <==> Trim(s) == ""
    decreases |s|
  {
    if s != "" {
      if IsWhitespace(s[0]) {
        BlankTrimsToNothing(s[1..]);
      } else if IsWhitespace(s[|s| - 1]) {
        BlankTrimsToNothing(s[..|s| - 1]);
        assert s[..|s| - 1][0] == s[0];
      }
    }
  }

  lemma {:induction false} BlankIsAllWhitespace(s: string)
    ensures IsBlankText(s) <==> forall i | 0 <= i < |s| :: IsWhitespace(s[i])
  {
    if s != "" {
      BlankIsAllWhitespace(s[1..]);
      if IsBlankText(s) {
        forall i | 0 <= i < |s| ensures IsWhitespace(s[i]) {
          assert i > 0 ==> s[i] == s[1..][i - 1];
        }
      }
    }
  }

  /** Trimming takes away whitespace in front and behind, and nothing else. */
  lemma {:induction false} TrimStrips(before: string, core: string, behind: string)
    requires IsBlankText(before) && IsBlankText(behind)
    requires core != "" && !IsWhitespace(core[0]) && !IsWhitespace(core[|core| - 1])
    ensures Trim(before + core + behind) == core
    decreases |before| + |behind|
  {
    var s := before + core + behind;
    if before != "" {
      assert s[1..] == before[1..] + core + behind;
      TrimStrips(before[1..], core, behind);
    } else if behind != "" {
      BlankIsAllWhitespace(behind);
      var fewer := behind[..|behind| - 1];
      BlankIsAllWhitespace(fewer);
      assert s[0] == core[0] && s[|s| - 1] == behind[|behind| - 1];
      assert s[..|s| - 1] == before + core + fewer;
      TrimStrips(before, core, fewer);
    } else {
      assert s == core;
    }
  }

  lemma OneMoreInFront(s: string, before: string, core: string, behind: string)
    requires s != "" && s[1..] == before + core + behind
    ensures s == [s[0]] + before + core + behind
  {
  }

  lemma OneMoreBehind(s: string, before: string, core: string, behind: string)
    requires s != "" && s[..|s| - 1] == before + core + behind
    ensures s == before + core + (behind + [s[|s| - 1]])
  {
  }

  lemma BlankOneMore(s: string, c: char)
    requires IsBlankText(s) && IsWhitespace(c)
    ensures IsBlankText([c] + s) && IsBlankText(s + [c])
  {
    BlankIsAllWhitespace(s);
    BlankIsAllWhitespace([c] + s);
    BlankIsAllWhitespace(s + [c]);
  }

  lemma {:induction false} TrimParts(s: string) returns (before: string, behind: string)
    ensures s == before + Trim(s) + behind
    ensures IsBlankText(before) && IsBlankText(behind)
    decreases |s|
  {
    if s == "" {
      before, behind := "", "";
    } else if IsWhitespace(s[0]) {
      var first, last := TrimParts(s[1..]);
      OneMoreInFront(s, first, Trim(s[1..]), last);
      BlankOneMore(first, s[0]);
      before, behind := [s[0]] + first, last;
    } else if IsWhitespace(s[|s| - 1]) {
      var first, last := TrimParts(s[..|s| - 1]);
      OneMoreBehind(s, first, Trim(s[..|s| - 1]), last);
      BlankOneMore(last, s[|s| - 1]);
      before, behind := first, last + [s[|s| - 1]];
    } else {
      before, behind := "", "";
      assert s == "" + s + "";
    }
  }

  /** Position of the first `c`, or `|s|`. */
  function IndexOf(s: string, c: char): (i: nat)
    ensures i <= |s|
    ensures c !in s[..i]
    ensures i < |s| ==> s[i] == c
  {
    if s == "" || s[0] == c then 0 else
      assert s[..1 + IndexOf(s[1..], c)] == [s[0]] + s[1..][..IndexOf(s[1..], c)];
      1 + IndexOf(s[1..], c)
  }

  /** `str::split` with a character pattern: one more piece than there are separators. */
  function Split(s: string, sep: char): (pieces: seq<string>)
    ensures pieces != []
    ensures forall p | p in pieces :: sep !in p
    decreases |s|
  {
    var i := IndexOf(s, sep);
    if i == |s| then
      assert s[..i] == s;
      [s]
    else [s[..i]] + Split(s[i + 1..], sep)
  }

  /** `[S]::join`. */
  function Join(lines: seq<string>, sep: string): string {
    if lines == [] then ""
    else if |lines| == 1 then lines[0]
    else lines[0] + sep + Join(lines[1..], sep)
  }

  lemma {:induction false} ReplaceCharAbsent(s: string, c: char, with: string)
    requires c !in s
    ensures ReplaceChar(s, c, with) == s
  {
    if s != "" {
      ReplaceCharAbsent(s[1..], c, with);
    }
  }

  lemma JoinHead(lines: seq<string>, sep: string, rest: string)
    requires |lines| > 1
    ensures Join(lines, sep) + rest == lines[0] + sep + (Join(lines[1..], sep) + rest)
  {
  }

  lemma NothingBefore<T>(s: seq<T>)
    ensures [] + s == s
  {
  }

  lemma NothingAfter<T>(s: seq<T>)
    ensures s + [] == s
  {
  }

  lemma MoveHead<T>(a: seq<T>, b: seq<T>)
    requires b != []
    ensures a + [b[0]] + b[1..] == a + b
  {
  }

  lemma ConcatAssociates<T>(a: seq<T>, b: seq<T>, c: seq<T>)
    ensures a + b + c == a + (b + c)
  {
  }
}
