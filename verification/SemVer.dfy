/**
 Version order and release-channel selection. The code's comparison of strings is proved a
 total preorder and, on the versions of Semantic Versioning 2.0.0, equal to the precedence
 of its section 11, which is stated below without reference to any parsing.
 */
module SemVer {
  import opened Text

  datatype Ordering = Less | Equal | Greater

  function Reverse(o: Ordering): Ordering {
    match o case Less => Greater case Equal => Equal case Greater => Less
  }

  function Then(first: Ordering, second: Ordering): Ordering {
    if first.Equal? then second else first
  }

  const U64_LIMIT := 0x1_0000_0000_0000_0000

  // ---------- parsing ----------

  predicate IsDigit(c: char) {
    '0' <= c <= '9'
  }

  predicate AllDigits(s: string) {
    forall i | 0 <= i < |s| :: IsDigit(s[i])
  }

  /** The number a row of decimal digits denotes. */
  function Value(digits: string): nat
    requires AllDigits(digits)
  {
    if digits == "" then 0
    else 10 * Value(digits[..|digits| - 1]) + (digits[|digits| - 1] - '0') as nat
  }

  /** `str::parse::<u64>`: an optional plus sign, then digits, leading zeros allowed. */
  function ParseU64(s: string): Option<nat> {
    var digits := if s != "" && s[0] == '+' then s[1..] else s;
    if digits == "" || !AllDigits(digits) || Value(digits) >= U64_LIMIT then None else Some(Value(digits))
  }

  datatype Parsed = Parsed(core: seq<nat>, pre: seq<string>)

  function ParseParts(parts: seq<string>): (r: Option<seq<nat>>)
    ensures r.Some? ==> |r.value| == 3
  {
    if |parts| != 3 then None else
      var major, minor, patch := ParseU64(parts[0]), ParseU64(parts[1]), ParseU64(parts[2]);
      if major.None? || minor.None? || patch.None? then None
      else Some([major.value, minor.value, patch.value])
  }

  function ParseRelease(coreAndPre: string): (r: Option<Parsed>)
    ensures r.Some? ==> |r.value.core| == 3
  {
    var dash := IndexOf(coreAndPre, '-');
    var pre := if dash == |coreAndPre| then [] else Split(coreAndPre[dash + 1..], '.');
    var core := ParseParts(Split(coreAndPre[..dash], '.'));
    if core.None? then None else Some(Parsed(core.value, pre))
  }

  function ParseSemver(v: string): (r: Option<Parsed>)
    ensures r.Some? ==> |r.value.core| == 3
  {
    ParseRelease(Split(Trim(v), '+')[0])
  }

  // ---------- the order ----------

  function CompareNat(a: nat, b: nat): Ordering {
    if a < b then Less else if a > b then Greater else Equal
  }

  /** `str::cmp`, which orders UTF-8 bytes and therefore code points. */
  function CompareText(s: string, t: string): Ordering {
    if s == "" || t == "" then CompareNat(|s|, |t|)
    else if s[0] != t[0] then (if s[0] < t[0] then Less else Greater)
    else CompareText(s[1..], t[1..])
  }

  function CompareSegment(x: string, y: string): Ordering {
    match (ParseU64(x), ParseU64(y))
    case (Some(m), Some(n)) => CompareNat(m, n)
    case (Some(_), None) => Less
    case (None, Some(_)) => Greater
    case (None, None) => CompareText(x, y)
  }

  function CompareSegments(p: seq<string>, q: seq<string>): Ordering {
    if p == [] || q == [] then CompareNat(|p|, |q|)
    else Then(CompareSegment(p[0], q[0]), CompareSegments(p[1..], q[1..]))
  }

  /** No pre-release at all ranks above every pre-release. */
  function ComparePre(p: seq<string>, q: seq<string>): Ordering {
    if p == [] || q == [] then Reverse(CompareNat(|p|, |q|)) else CompareSegments(p, q)
  }

  function CompareCore(c: seq<nat>, d: seq<nat>): Ordering
    requires |c| == |d| == 3
  {
    Then(CompareNat(c[0], d[0]), Then(CompareNat(c[1], d[1]), CompareNat(c[2], d[2])))
  }

  function CompareParsed(x: Parsed, y: Parsed): Ordering
    requires |x.core| == |y.core| == 3
  {
    Then(CompareCore(x.core, y.core), ComparePre(x.pre, y.pre))
  }

  function Order(a: string, b: string): Option<Ordering> {
    match (ParseSemver(a), ParseSemver(b))
    case (Some(x), Some(y)) => Some(CompareParsed(x, y))
    case _ => None
  }

  method CompareVersions(x: Parsed, y: Parsed) returns (r: Ordering)
    requires |x.core| == |y.core| == 3
    ensures r == CompareParsed(x, y)
  {
    for i := 0 to 3
      invariant forall k | 0 <= k < i :: x.core[k] == y.core[k]
    {
      var ord := CompareNat(x.core[i], y.core[i]);
      if !ord.Equal? {
        return ord;
      }
    }
    var ap, bp := x.pre, y.pre;
    if ap == [] || bp == [] {
      return if ap == [] && bp == [] then Equal else if ap == [] then Greater else Less;
    }
    var k := 0;
    while k < |ap| && k < |bp|
      invariant k <= |ap| && k <= |bp|
      invariant CompareSegments(ap, bp) == CompareSegments(ap[k..], bp[k..])
    {
      var ord := CompareSegment(ap[k], bp[k]);
      if !ord.Equal? {
        return ord;
      }
      k := k + 1;
    }
    return CompareNat(|ap|, |bp|);
  }

  method CompareSemver(a: string, b: string) returns (r: Option<Ordering>)
    ensures r == Order(a, b)
  {
    var x, y := ParseSemver(a), ParseSemver(b);
    if x.None? || y.None? {
      return None;
    }
    var ord := CompareVersions(x.value, y.value);
    return Some(ord);
  }

  // ---------- a total preorder ----------

  /** Two steps up make a step up, strict as soon as either of them is. */
  predicate Chains(ab: Ordering, bc: Ordering, ac: Ordering) {
    !ab.Greater? && !bc.Greater? ==> ac == if ab.Less? || bc.Less? then Less else Equal
  }

  lemma {:induction false} TextIsPreorder(a: string, b: string, c: string)
    ensures CompareText(b, a) == Reverse(CompareText(a, b))
    ensures Chains(CompareText(a, b), CompareText(b, c), CompareText(a, c))
  {
    if a != "" && b != "" {
      TextIsPreorder(a[1..], b[1..], if c == "" then "" else c[1..]);
    }
  }

  lemma SegmentIsPreorder(a: string, b: string, c: string)
    ensures CompareSegment(b, a) == Reverse(CompareSegment(a, b))
    ensures Chains(CompareSegment(a, b), CompareSegment(b, c), CompareSegment(a, c))
  {
    TextIsPreorder(a, b, c);
  }

  lemma {:induction false} SegmentsIsPreorder(a: seq<string>, b: seq<string>, c: seq<string>)
    ensures CompareSegments(b, a) == Reverse(CompareSegments(a, b))
    ensures Chains(CompareSegments(a, b), CompareSegments(b, c), CompareSegments(a, c))
  {
    if a != [] && b != [] {
      SegmentIsPreorder(a[0], b[0], if c == [] then "" else c[0]);
      SegmentsIsPreorder(a[1..], b[1..], if c == [] then [] else c[1..]);
    }
  }

  lemma ParsedIsPreorder(x: Parsed, y: Parsed, z: Parsed)
    requires |x.core| == |y.core| == |z.core| == 3
    ensures CompareParsed(x, x) == Equal
    ensures CompareParsed(y, x) == Reverse(CompareParsed(x, y))
    ensures Chains(CompareParsed(x, y), CompareParsed(y, z), CompareParsed(x, z))
  {
    SegmentsIsPreorder(x.pre, y.pre, z.pre);
    SegmentsIsPreorder(x.pre, x.pre, x.pre);
  }

  /**
   Strings compare exactly when both parse, that is when each compares with itself. On those
   the order is total, transitive (strictly where either step is strict) and reversed by
   swapping.
   */
  lemma OrderIsTotalPreorder(a: string, b: string, c: string)
    ensures Order(a, b).Some? <==> Order(a, a).Some? && Order(b, b).Some?
    ensures Order(a, a).Some? ==> Order(a, a) == Some(Equal)
    ensures Order(a, b).Some? ==> Order(b, a) == Some(Reverse(Order(a, b).value))
    ensures Order(a, b).Some? && Order(b, c).Some? ==>
              Order(a, c).Some? && Chains(Order(a, b).value, Order(b, c).value, Order(a, c).value)
  {
    var x, y, z := ParseSemver(a), ParseSemver(b), ParseSemver(c);
    if x.Some? {
      ParsedIsPreorder(x.value, x.value, x.value);
      if y.Some? {
        ParsedIsPreorder(x.value, y.value, x.value);
        if z.Some? {
          ParsedIsPreorder(x.value, y.value, z.value);
        }
      }
    }
  }

  // ---------- build metadata ----------

  lemma SandwichEnds(v: string, rest: string)
    requires v != ""
    ensures var s := v + "+" + rest;
            && s[0] == v[0] && s[1..] == v[1..] + "+" + rest
            && (rest == "" ==> s[|s| - 1] == '+')
            && (rest != "" ==> s[|s| - 1] == rest[|rest| - 1] && s[..|s| - 1] == v + "+" + rest[..|rest| - 1])
  {
  }

  lemma TrimSteps(s: string)
    requires s != ""
    ensures IsWhitespace(s[0]) ==> Trim(s) == Trim(s[1..])
    ensures !IsWhitespace(s[0]) && IsWhitespace(s[|s| - 1]) ==> Trim(s) == Trim(s[..|s| - 1])
    ensures !IsWhitespace(s[0]) && !IsWhitespace(s[|s| - 1]) ==> Trim(s) == s
  {
  }

  lemma {:induction false} TrimKeepsHead(v: string, rest: string) returns (kept: string)
    requires v != "" && !IsWhitespace(v[|v| - 1])
    ensures Trim(v + "+" + rest) == Trim(v) + "+" + kept
    decreases |v| + |rest|
  {
    var s := v + "+" + rest;
    SandwichEnds(v, rest);
    TrimSteps(s);
    TrimSteps(v);
    if IsWhitespace(v[0]) {
      kept := TrimKeepsHead(v[1..], rest);
    } else if IsWhitespace(s[|s| - 1]) {
      kept := TrimKeepsHead(v, rest[..|rest| - 1]);
    } else {
      kept := rest;
    }
  }

  lemma {:induction false} IndexAfter(head: string, c: char, tail: string)
    requires c !in head
    ensures IndexOf(head + [c] + tail, c) == |head|
  {
    if head != "" {
      IndexAfter(head[1..], c, tail);
      assert (head + [c] + tail)[1..] == head[1..] + [c] + tail;
    }
  }

  lemma SplitFirst(head: string, c: char, tail: string)
    requires c !in head
    ensures Split(head + [c] + tail, c) == [head] + Split(tail, c)
  {
    var s := head + [c] + tail;
    IndexAfter(head, c, tail);
    assert s[..|head|] == head && s[|head| + 1..] == tail;
  }

  lemma SplitNone(s: string, c: char)
    requires c !in s
    ensures Split(s, c) == [s]
  {
    assert IndexOf(s, c) == |s|;
  }

  lemma {:induction false} TrimIsPart(s: string, c: char)
    requires c !in s
    ensures c !in Trim(s)
    decreases |s|
  {
    if s != "" {
      if IsWhitespace(s[0]) {
        TrimIsPart(s[1..], c);
      } else if IsWhitespace(s[|s| - 1]) {
        TrimIsPart(s[..|s| - 1], c);
      }
    }
  }

  /** Whatever follows a plus sign plays no part. */
  lemma BuildMetadataIsIgnored(v: string, build: string, w: string)
    requires v != "" && !IsWhitespace(v[|v| - 1]) && '+' !in v
    ensures Order(v + "+" + build, w) == Order(v, w)
    ensures Order(w, v + "+" + build) == Order(w, v)
  {
    var kept := TrimKeepsHead(v, build);
    TrimIsPart(v, '+');
    SplitFirst(Trim(v), '+', kept);
    SplitNone(Trim(v), '+');
  }

  // ---------- section 11 of Semantic Versioning 2.0.0 ----------

  datatype Identifier = Numeric(value: nat) | Alphanumeric(text: string)

  datatype Version = Version(major: nat, minor: nat, patch: nat, pre: seq<Identifier>, build: seq<string>)

  predicate IsIdentifierChar(c: char) {
    IsDigit(c) || 'A' <= c <= 'Z' || 'a' <= c <= 'z' || c == '-'
  }

  predicate IsIdentifierText(s: string) {
    s != "" && forall i | 0 <= i < |s| :: IsIdentifierChar(s[i])
  }

  predicate IsValidIdentifier(x: Identifier) {
    x.Alphanumeric? ==> IsIdentifierText(x.text) && !AllDigits(x.text)
  }

  predicate IsValid(v: Version) {
    && (forall i | 0 <= i < |v.pre| :: IsValidIdentifier(v.pre[i]))
    && (forall i | 0 <= i < |v.build| :: IsIdentifierText(v.build[i]))
  }

  /** Without leading zeros. */
  function Decimal(n: nat): (s: string)
    ensures s != "" && AllDigits(s) && Value(s) == n
  {
    var last := ['0' + (n % 10) as char];
    if n < 10 then assert last[..0] == ""; last else
      var s := Decimal(n / 10) + last;
      assert s[..|s| - 1] == Decimal(n / 10);
      s
  }

  function RenderIdentifier(x: Identifier): string {
    match x case Numeric(n) => Decimal(n) case Alphanumeric(text) => text
  }

  function RenderPre(pre: seq<Identifier>): (r: seq<string>)
    ensures |r| == |pre|
  {
    if pre == [] then [] else [RenderIdentifier(pre[0])] + RenderPre(pre[1..])
  }

  function RenderCore(v: Version): string {
    Decimal(v.major) + "." + (Decimal(v.minor) + "." + Decimal(v.patch))
  }

  function RenderRelease(v: Version): string {
    if v.pre == [] then RenderCore(v) else RenderCore(v) + "-" + Join(RenderPre(v.pre), ".")
  }

  function Render(v: Version): string {
    if v.build == [] then RenderRelease(v) else RenderRelease(v) + "+" + Join(v.build, ".")
  }

  /** Lexical order: the first difference decides, and a proper prefix comes first. */
  ghost predicate ComesFirst<T>(s: seq<T>, t: seq<T>, less: (T, T) -> bool) {
    exists k | 0 <= k <= |s| ::
      k < |t| && s[..k] == t[..k] && (k < |s| ==> less(s[k], t[k]))
  }

  predicate CharPrecedes(c: char, d: char) {
    c < d
  }

  ghost predicate IdentifierPrecedes(x: Identifier, y: Identifier) {
    match (x, y)
    case (Numeric(m), Numeric(n)) => m < n
    case (Numeric(_), Alphanumeric(_)) => true
    case (Alphanumeric(_), Numeric(_)) => false
    case (Alphanumeric(s), Alphanumeric(t)) => ComesFirst(s, t, CharPrecedes)
  }

  ghost predicate PrePrecedes(p: seq<Identifier>, q: seq<Identifier>) {
    p != [] && (q == [] || ComesFirst(p, q, IdentifierPrecedes))
  }

  ghost predicate Precedes(v: Version, w: Version) {
    || v.major < w.major
    || (v.major == w.major && v.minor < w.minor)
    || (v.major == w.major && v.minor == w.minor && v.patch < w.patch)
    || (v.major == w.major && v.minor == w.minor && v.patch == w.patch && PrePrecedes(v.pre, w.pre))
  }

  predicate CoreFits(v: Version) {
    v.major < U64_LIMIT && v.minor < U64_LIMIT && v.patch < U64_LIMIT
  }

  predicate PreFits(pre: seq<Identifier>) {
    forall i | 0 <= i < |pre| :: pre[i].Numeric? ==> pre[i].value < U64_LIMIT
  }

  // ---------- printing and parsing ----------

  lemma DecimalParses(n: nat)
    ensures ParseU64(Decimal(n)) == if n < U64_LIMIT then Some(n) else None
  {
    assert IsDigit(Decimal(n)[0]);
  }

  lemma AlphanumericDoesNotParse(s: string)
    requires IsIdentifierText(s) && !AllDigits(s)
    ensures ParseU64(s).None?
  {
    assert IsIdentifierChar(s[0]);
  }

  lemma {:induction false} SplitJoin(pieces: seq<string>, sep: char)
    requires pieces != [] && forall i | 0 <= i < |pieces| :: sep !in pieces[i]
    ensures Split(Join(pieces, [sep]), sep) == pieces
  {
    if |pieces| == 1 {
      SplitNone(pieces[0], sep);
    } else {
      var rest := pieces[1..];
      SplitJoin(rest, sep);
      SplitFirst(pieces[0], sep, Join(rest, [sep]));
      assert pieces == [pieces[0]] + rest;
      assert Join(pieces, [sep]) == pieces[0] + [sep] + Join(rest, [sep]);
    }
  }

  predicate ReleaseChar(c: char) {
    IsIdentifierChar(c) || c == '.'
  }

  predicate ReleaseText(s: string) {
    forall i | 0 <= i < |s| :: ReleaseChar(s[i])
  }

  lemma {:induction false} JoinIsReleaseText(pieces: seq<string>)
    requires forall i | 0 <= i < |pieces| :: IsIdentifierText(pieces[i])
    ensures ReleaseText(Join(pieces, "."))
    ensures pieces != [] ==> Join(pieces, ".") != ""
  {
    if |pieces| > 1 {
      JoinIsReleaseText(pieces[1..]);
    }
  }

  lemma DecimalIsText(n: nat)
    ensures IsIdentifierText(Decimal(n)) && '.' !in Decimal(n) && '-' !in Decimal(n)
  {
    forall i | 0 <= i < |Decimal(n)| ensures IsDigit(Decimal(n)[i]) {
    }
  }

  lemma {:induction false} RenderedPreIsText(pre: seq<Identifier>, k: nat)
    requires k < |pre| && forall i | 0 <= i < |pre| :: IsValidIdentifier(pre[i])
    ensures IsIdentifierText(RenderPre(pre)[k]) && '.' !in RenderPre(pre)[k]
  {
    if k == 0 {
      if pre[0].Numeric? {
        DecimalIsText(pre[0].value);
      } else {
        forall i | 0 <= i < |pre[0].text| ensures pre[0].text[i] != '.' {
          assert IsIdentifierChar(pre[0].text[i]);
        }
      }
    } else {
      RenderedPreIsText(pre[1..], k - 1);
    }
  }

  lemma CoreSplits(v: Version)
    ensures Split(RenderCore(v), '.') == [Decimal(v.major), Decimal(v.minor), Decimal(v.patch)]
  {
    DecimalIsText(v.major);
    DecimalIsText(v.minor);
    DecimalIsText(v.patch);
    var rest := Decimal(v.minor) + "." + Decimal(v.patch);
    SplitFirst(Decimal(v.major), '.', rest);
    SplitFirst(Decimal(v.minor), '.', Decimal(v.patch));
    SplitNone(Decimal(v.patch), '.');
  }

  lemma ThreeTexts(a: string, b: string, c: string)
    requires IsIdentifierText(a) && IsIdentifierText(b) && IsIdentifierText(c)
    requires '-' !in a && '-' !in b && '-' !in c
    ensures var s := a + "." + (b + "." + c); ReleaseText(s) && '-' !in s && s != ""
  {
  }

  lemma CoreText(v: Version)
    ensures ReleaseText(RenderCore(v)) && '-' !in RenderCore(v) && RenderCore(v) != ""
  {
    DecimalIsText(v.major);
    DecimalIsText(v.minor);
    DecimalIsText(v.patch);
    ThreeTexts(Decimal(v.major), Decimal(v.minor), Decimal(v.patch));
  }

  lemma ReleaseTextOf(v: Version)
    requires IsValid(v)
    ensures ReleaseText(RenderRelease(v)) && RenderRelease(v) != ""
  {
    CoreText(v);
    if v.pre != [] {
      forall i | 0 <= i < |v.pre| ensures IsIdentifierText(RenderPre(v.pre)[i]) {
        RenderedPreIsText(v.pre, i);
      }
      JoinIsReleaseText(RenderPre(v.pre));
    }
  }

  lemma TextHasNoBlanks(s: string)
    requires ReleaseText(s)
    ensures '+' !in s
    ensures s != "" ==> !IsWhitespace(s[0]) && !IsWhitespace(s[|s| - 1])
  {
    forall i | 0 <= i < |s| ensures s[i] != '+' && !IsWhitespace(s[i]) {
      assert ReleaseChar(s[i]);
    }
  }

  /** Trimming and dropping the build metadata leave the release part. */
  lemma ReleasePart(v: Version)
    requires IsValid(v)
    ensures Split(Trim(Render(v)), '+')[0] == RenderRelease(v)
  {
    ReleaseTextOf(v);
    var release := RenderRelease(v);
    TextHasNoBlanks(release);
    if v.build == [] {
      SplitNone(release, '+');
    } else {
      var build := Join(v.build, ".");
      JoinIsReleaseText(v.build);
      TextHasNoBlanks(build);
      var s := release + "+" + build;
      assert s[0] == release[0] && s[|s| - 1] == build[|build| - 1];
      SplitFirst(release, '+', build);
    }
  }

  lemma CoreParses(v: Version)
    ensures ParseParts(Split(RenderCore(v), '.')) ==
            if CoreFits(v) then Some([v.major, v.minor, v.patch]) else None
  {
    CoreSplits(v);
    DecimalParses(v.major);
    DecimalParses(v.minor);
    DecimalParses(v.patch);
  }

  lemma PreSplits(pre: seq<Identifier>)
    requires pre != [] && forall i | 0 <= i < |pre| :: IsValidIdentifier(pre[i])
    ensures Split(Join(RenderPre(pre), "."), '.') == RenderPre(pre)
  {
    forall i | 0 <= i < |pre| ensures '.' !in RenderPre(pre)[i] {
      RenderedPreIsText(pre, i);
    }
    SplitJoin(RenderPre(pre), '.');
  }

  lemma ParseBareCore(core: string)
    requires '-' !in core
    ensures ParseRelease(core) ==
            match ParseParts(Split(core, '.')) case None => None case Some(c) => Some(Parsed(c, []))
  {
    assert core[..|core|] == core;
  }

  lemma ParseWithPre(core: string, pre: string)
    requires '-' !in core
    ensures ParseRelease(core + "-" + pre) ==
            match ParseParts(Split(core, '.')) case None => None case Some(c) => Some(Parsed(c, Split(pre, '.')))
  {
    IndexAfter(core, '-', pre);
    var release := core + "-" + pre;
    assert release[..|core|] == core && release[|core| + 1..] == pre;
  }

  /** Parsing inverts printing, and fails exactly when a core field passes 64 bits. */
  lemma ParseRender(v: Version)
    requires IsValid(v)
    ensures ParseSemver(Render(v)) == if CoreFits(v) then Some(Fields(v)) else None
  {
    ReleasePart(v);
    CoreText(v);
    CoreParses(v);
    if v.pre == [] {
      ParseBareCore(RenderCore(v));
    } else {
      PreSplits(v.pre);
      ParseWithPre(RenderCore(v), Join(RenderPre(v.pre), "."));
    }
  }

  /** Blanks around a version change no comparison, on either side. */
  lemma SurroundingBlanksAreIgnored(before: string, v: string, behind: string, w: string)
    requires IsBlankText(before) && IsBlankText(behind)
    requires v != "" && !IsWhitespace(v[0]) && !IsWhitespace(v[|v| - 1])
    ensures Order(before + v + behind, w) == Order(v, w)
    ensures Order(w, before + v + behind) == Order(w, v)
  {
    TrimStrips(before, v, behind);
    TrimStrips("", v, "");
    assert "" + v + "" == v;
  }

  // ---------- the order is the precedence ----------

  lemma DropFromBoth<T>(s: seq<T>, t: seq<T>, less: (T, T) -> bool)
    requires s != [] && t != [] && s[0] == t[0] && !less(s[0], t[0]) && ComesFirst(s, t, less)
    ensures ComesFirst(s[1..], t[1..], less)
  {
    var k :| 0 <= k <= |s| && k < |t| && s[..k] == t[..k] && (k < |s| ==> less(s[k], t[k]));
    assert s[1..][..k - 1] == s[..k][1..] && t[1..][..k - 1] == t[..k][1..];
  }

  lemma AddToBoth<T>(s: seq<T>, t: seq<T>, less: (T, T) -> bool)
    requires s != [] && t != [] && s[0] == t[0] && ComesFirst(s[1..], t[1..], less)
    ensures ComesFirst(s, t, less)
  {
    var k :| 0 <= k <= |s[1..]| && k < |t[1..]| && s[1..][..k] == t[1..][..k]
      && (k < |s[1..]| ==> less(s[1..][k], t[1..][k]));
    assert s[..k + 1] == [s[0]] + s[1..][..k] && t[..k + 1] == [t[0]] + t[1..][..k];
  }

  lemma DifferentHeads<T>(s: seq<T>, t: seq<T>, k: nat)
    requires k <= |s| && k <= |t| && k > 0 ==> s[0] != t[0]
    ensures k <= |s| && k <= |t| && s[..k] == t[..k] ==> k == 0
  {
    if 0 < k <= |s| && k <= |t| {
      assert s[..k][0] == s[0] && t[..k][0] == t[0];
    }
  }

  lemma HeadsDecide<T>(s: seq<T>, t: seq<T>, less: (T, T) -> bool)
    ensures s == [] ==> (ComesFirst(s, t, less) <==> t != [])
    ensures t == [] ==> !ComesFirst(s, t, less)
    ensures s != [] && t != [] && less(s[0], t[0]) ==> ComesFirst(s, t, less)
    ensures s != [] && t != [] && s[0] != t[0] && ComesFirst(s, t, less) ==> less(s[0], t[0])
  {
    if t != [] && (s == [] || less(s[0], t[0])) {
      assert s[..0] == t[..0];
    }
    if s != [] && t != [] && s[0] != t[0] && ComesFirst(s, t, less) {
      var k :| 0 <= k <= |s| && k < |t| && s[..k] == t[..k] && (k < |s| ==> less(s[k], t[k]));
      DifferentHeads(s, t, k);
    }
  }

  lemma ComesFirstUnfolds<T>(s: seq<T>, t: seq<T>, less: (T, T) -> bool)
    ensures s == [] ==> (ComesFirst(s, t, less) <==> t != [])
    ensures t == [] ==> !ComesFirst(s, t, less)
    ensures s != [] && t != [] && s[0] != t[0] ==> (ComesFirst(s, t, less) <==> less(s[0], t[0]))
    ensures s != [] && t != [] && s[0] == t[0] && !less(s[0], t[0]) ==>
              (ComesFirst(s, t, less) <==> ComesFirst(s[1..], t[1..], less))
  {
    HeadsDecide(s, t, less);
    if s != [] && t != [] && s[0] == t[0] && !less(s[0], t[0]) {
      if ComesFirst(s, t, less) {
        DropFromBoth(s, t, less);
      }
      if ComesFirst(s[1..], t[1..], less) {
        AddToBoth(s, t, less);
      }
    }
  }

  lemma {:induction false} TextOrder(s: string, t: string)
    ensures CompareText(s, t).Less? <==> ComesFirst(s, t, CharPrecedes)
    ensures CompareText(s, t).Equal? <==> s == t
  {
    ComesFirstUnfolds(s, t, CharPrecedes);
    if s != "" && t != "" {
      assert s == [s[0]] + s[1..] && t == [t[0]] + t[1..];
      TextOrder(s[1..], t[1..]);
    }
  }

  predicate IsWide(x: Identifier) {
    x.Numeric? && x.value >= U64_LIMIT
  }

  /**
   The code compares a number beyond 64 bits as text. `x`, such a number, ranks before `y`,
   a larger one or an alphanumeric identifier, but the text of `y` comes first.
   */
  ghost predicate Misleads(x: Identifier, y: Identifier) {
    && IsWide(x) && (y.Alphanumeric? || (IsWide(y) && x.value < y.value))
    && ComesFirst(RenderIdentifier(y), RenderIdentifier(x), CharPrecedes)
  }

  /** The first identifiers that differ mislead, one way or the other. */
  ghost predicate IsMisread(p: seq<Identifier>, q: seq<Identifier>) {
    p != [] && q != [] &&
    if p[0] == q[0] then IsMisread(p[1..], q[1..]) else Misleads(p[0], q[0]) || Misleads(q[0], p[0])
  }

  lemma ParsesByKind(x: Identifier)
    requires IsValidIdentifier(x)
    ensures ParseU64(RenderIdentifier(x)) == if x.Numeric? && !IsWide(x) then Some(x.value) else None
  {
    if x.Numeric? {
      DecimalParses(x.value);
    } else {
      AlphanumericDoesNotParse(x.text);
    }
  }

  /** Texts that differ are ordered one way. */
  lemma TextIsStrict(s: string, t: string)
    requires s != t
    ensures ComesFirst(s, t, CharPrecedes) <==> !ComesFirst(t, s, CharPrecedes)
    ensures CompareText(s, t) == if ComesFirst(s, t, CharPrecedes) then Less else Greater
  {
    TextOrder(s, t);
    TextOrder(t, s);
    TextIsPreorder(s, t, s);
  }

  lemma IdentifiersDiffer(x: Identifier, y: Identifier)
    requires IsValidIdentifier(x) && IsValidIdentifier(y) && x != y
    ensures RenderIdentifier(x) != RenderIdentifier(y)
  {
  }

  lemma PrecedenceIsStrict(x: Identifier, y: Identifier)
    requires x != y
    ensures IdentifierPrecedes(x, y) <==> !IdentifierPrecedes(y, x)
  {
    if x.Alphanumeric? && y.Alphanumeric? {
      TextIsStrict(x.text, y.text);
    }
  }

  /** Segments of differing identifiers compare as the identifiers rank unless they mislead. */
  lemma IdentifierOrder(x: Identifier, y: Identifier)
    requires IsValidIdentifier(x) && IsValidIdentifier(y) && x != y
    ensures CompareSegment(RenderIdentifier(x), RenderIdentifier(y)) ==
            if IdentifierPrecedes(x, y) <==> !(Misleads(x, y) || Misleads(y, x)) then Less else Greater
  {
    ParsesByKind(x);
    ParsesByKind(y);
    IdentifiersDiffer(x, y);
    TextIsStrict(RenderIdentifier(x), RenderIdentifier(y));
  }

  lemma SameSegment(x: string)
    ensures CompareSegment(x, x) == Equal
  {
    TextOrder(x, x);
  }

  lemma NothingPrecedesItself(x: Identifier)
    ensures !IdentifierPrecedes(x, x)
  {
    if x.Alphanumeric? {
      TextOrder(x.text, x.text);
    }
  }

  lemma {:induction false} PreOrder(p: seq<Identifier>, q: seq<Identifier>)
    requires forall i | 0 <= i < |p| :: IsValidIdentifier(p[i])
    requires forall i | 0 <= i < |q| :: IsValidIdentifier(q[i])
    ensures p == q ==> CompareSegments(RenderPre(p), RenderPre(q)) == Equal
    ensures p != q ==> (ComesFirst(p, q, IdentifierPrecedes) <==> !ComesFirst(q, p, IdentifierPrecedes))
    ensures p != q ==>
              CompareSegments(RenderPre(p), RenderPre(q)) ==
              if ComesFirst(p, q, IdentifierPrecedes) <==> !IsMisread(p, q) then Less else Greater
  {
    ComesFirstUnfolds(p, q, IdentifierPrecedes);
    ComesFirstUnfolds(q, p, IdentifierPrecedes);
    if p != [] && q != [] {
      assert p == [p[0]] + p[1..] && q == [q[0]] + q[1..];
      assert RenderPre(p)[1..] == RenderPre(p[1..]) && RenderPre(q)[1..] == RenderPre(q[1..]);
      if p[0] == q[0] {
        SameSegment(RenderIdentifier(p[0]));
        NothingPrecedesItself(p[0]);
        PreOrder(p[1..], q[1..]);
      } else {
        PrecedenceIsStrict(p[0], q[0]);
        IdentifierOrder(p[0], q[0]);
      }
    }
  }

  predicate SameRelease(v: Version, w: Version) {
    v.major == w.major && v.minor == w.minor && v.patch == w.patch && v.pre == w.pre
  }

  /** What `ParseSemver` makes of a printed version. */
  function Fields(v: Version): Parsed {
    Parsed([v.major, v.minor, v.patch], RenderPre(v.pre))
  }

  /** The answer is the precedence of section 11, all three ways. */
  ghost predicate IsPrecedence(o: Ordering, v: Version, w: Version) {
    && (o.Less? <==> Precedes(v, w))
    && (o.Equal? <==> SameRelease(v, w))
    && (o.Greater? <==> Precedes(w, v))
  }

  /** Only the pre-releases are left to decide, and they are misread. */
  ghost predicate ComparesAsText(v: Version, w: Version) {
    v.major == w.major && v.minor == w.minor && v.patch == w.patch && IsMisread(v.pre, w.pre)
  }

  lemma FieldsOrder(v: Version, w: Version)
    requires IsValid(v) && IsValid(w)
    ensures IsPrecedence(CompareParsed(Fields(v), Fields(w)), v, w) <==> !ComparesAsText(v, w)
    ensures ComparesAsText(v, w) ==>
              CompareParsed(Fields(v), Fields(w)) == if Precedes(v, w) then Greater else Less
  {
    PreOrder(v.pre, w.pre);
    if v.pre == w.pre {
      NeverMisreadsItself(v.pre);
      NeverFirst(v.pre);
    }
  }

  lemma {:induction false} NeverMisreadsItself(p: seq<Identifier>)
    ensures !IsMisread(p, p)
  {
    if p != [] {
      NeverMisreadsItself(p[1..]);
    }
  }

  lemma {:induction false} NeverFirst(p: seq<Identifier>)
    ensures !ComesFirst(p, p, IdentifierPrecedes)
  {
    ComesFirstUnfolds(p, p, IdentifierPrecedes);
    if p != [] {
      NothingPrecedesItself(p[0]);
      NeverFirst(p[1..]);
    }
  }

  lemma OrderOfFields(v: Version, w: Version)
    requires IsValid(v) && IsValid(w)
    ensures Order(Render(v), Render(w)) ==
            if CoreFits(v) && CoreFits(w) then Some(CompareParsed(Fields(v), Fields(w))) else None
  {
    ParseRender(v);
    ParseRender(w);
  }

  /**
   On all valid versions: there is an answer exactly when the core fields fit 64 bits, and
   it is the precedence of section 11, build metadata aside (section 10), if and only if
   the first pre-release identifiers that differ do not mislead. If they do, it is reversed.
   */
  lemma OrderIsPrecedence(v: Version, w: Version)
    requires IsValid(v) && IsValid(w)
    ensures Order(Render(v), Render(w)).Some? <==> CoreFits(v) && CoreFits(w)
    ensures CoreFits(v) && CoreFits(w) ==>
              (IsPrecedence(Order(Render(v), Render(w)).value, v, w) <==> !ComparesAsText(v, w))
    ensures CoreFits(v) && CoreFits(w) && ComparesAsText(v, w) ==>
              Order(Render(v), Render(w)) == Some(if Precedes(v, w) then Greater else Less)
  {
    OrderOfFields(v, w);
    FieldsOrder(v, w);
  }

  /** In particular the answer is right when all numeric identifiers fit 64 bits. */
  lemma FittingIsNeverMisread(v: Version, w: Version)
    requires IsValid(v) && IsValid(w) && PreFits(v.pre) && PreFits(w.pre) && CoreFits(v) && CoreFits(w)
    ensures exists o :: Order(Render(v), Render(w)) == Some(o) && IsPrecedence(o, v, w)
  {
    FitsReads(v.pre, w.pre);
    FieldsOrder(v, w);
    OrderOfFields(v, w);
  }

  lemma {:induction false} FitsReads(p: seq<Identifier>, q: seq<Identifier>)
    requires PreFits(p) && PreFits(q)
    ensures !IsMisread(p, q)
  {
    if p != [] && q != [] && p[0] == q[0] {
      FitsReads(p[1..], q[1..]);
    }
  }

  // ---------- beyond 64 bits ----------

  /** `d` followed by `k` zeros. */
  function Scaled(d: nat, k: nat): (n: nat)
    ensures d > 0 ==> n > 0
  {
    if k == 0 then d else 10 * Scaled(d, k - 1)
  }

  lemma TimesTenKeepsLead(n: nat)
    requires n > 0
    ensures Decimal(10 * n)[0] == Decimal(n)[0]
  {
    assert 10 * n / 10 == n;
  }

  lemma {:induction false} LeadingDigit(d: nat, k: nat)
    requires 0 < d < 10
    ensures Decimal(Scaled(d, k))[0] == '0' + d as char
  {
    if k > 0 {
      LeadingDigit(d, k - 1);
      TimesTenKeepsLead(Scaled(d, k - 1));
    }
  }

  function OnlyPre(x: Identifier): Version {
    Version(1, 0, 0, [x], [])
  }

  /** Single identifiers that mislead give the reverse of their precedence. */
  lemma MisleadingPair(x: Identifier, y: Identifier)
    requires IsValidIdentifier(x) && IsValidIdentifier(y) && Misleads(x, y)
    ensures Precedes(OnlyPre(x), OnlyPre(y))
    ensures Order(Render(OnlyPre(x)), Render(OnlyPre(y))) == Some(Greater)
  {
    HeadsDecide(OnlyPre(x).pre, OnlyPre(y).pre, IdentifierPrecedes);
    OrderIsPrecedence(OnlyPre(x), OnlyPre(y));
  }

  lemma FirstCharDecides(s: string, t: string)
    requires s != "" && t != "" && s[0] < t[0]
    ensures ComesFirst(s, t, CharPrecedes)
  {
    HeadsDecide(s, t, CharPrecedes);
  }

  lemma WiderIsBelow(m: nat, n: nat)
    requires U64_LIMIT <= m < n && Decimal(n)[0] < Decimal(m)[0]
    ensures Precedes(OnlyPre(Numeric(m)), OnlyPre(Numeric(n)))
    ensures Order(Render(OnlyPre(Numeric(m))), Render(OnlyPre(Numeric(n)))) == Some(Greater)
  {
    FirstCharDecides(Decimal(n), Decimal(m));
    MisleadingPair(Numeric(m), Numeric(n));
  }

  lemma TextIsBelow(m: nat, text: string)
    requires U64_LIMIT <= m && IsIdentifierText(text) && !AllDigits(text) && text[0] < Decimal(m)[0]
    ensures Precedes(OnlyPre(Numeric(m)), OnlyPre(Alphanumeric(text)))
    ensures Order(Render(OnlyPre(Numeric(m))), Render(OnlyPre(Alphanumeric(text)))) == Some(Greater)
  {
    FirstCharDecides(text, Decimal(m));
    MisleadingPair(Numeric(m), Alphanumeric(text));
  }

  /** Two numbers: the code puts pre-release 2e19, written out in digits, above 1e20. */
  lemma WideIdentifiersDeviate() returns (m: nat, n: nat)
    ensures m == Scaled(2, 19) && n == Scaled(1, 20)
    ensures Precedes(OnlyPre(Numeric(m)), OnlyPre(Numeric(n)))
    ensures Order(Render(OnlyPre(Numeric(m))), Render(OnlyPre(Numeric(n)))) == Some(Greater)
  {
    m, n := Scaled(2, 19), Scaled(1, 20);
    TwoTimesTenToThe19();
    LeadingDigit(2, 19);
    LeadingDigit(1, 20);
    WiderIsBelow(m, n);
  }

  lemma OneAIsText(text: string)
    requires text == "1a"
    ensures IsIdentifierText(text) && !AllDigits(text) && text[0] == '1'
  {
    assert text[1] == 'a' && !IsDigit(text[1]);
  }

  /** A number against text: it puts 2e19, in digits, above `1a`. */
  lemma WideNumberAgainstText() returns (m: nat, text: string)
    ensures m == Scaled(2, 19) && text == "1a"
    ensures Precedes(OnlyPre(Numeric(m)), OnlyPre(Alphanumeric(text)))
    ensures Order(Render(OnlyPre(Numeric(m))), Render(OnlyPre(Alphanumeric(text)))) == Some(Greater)
  {
    m, text := Scaled(2, 19), "1a";
    TwoTimesTenToThe19();
    LeadingDigit(2, 19);
    OneAIsText(text);
    TextIsBelow(m, text);
  }

  // Numbers with equally many digits never mislead.

  lemma {:induction false} TextSnoc(s: string, t: string, c: char, d: char)
    requires |s| == |t|
    ensures CompareText(s + [c], t + [d]) ==
            Then(CompareText(s, t), if c < d then Less else if c > d then Greater else Equal)
  {
    if s != "" {
      assert (s + [c])[1..] == s[1..] + [c] && (t + [d])[1..] == t[1..] + [d];
      TextSnoc(s[1..], t[1..], c, d);
    } else {
      assert s + [c] == [c] && t + [d] == [d];
    }
  }

  lemma {:induction false} TextIsNumericOrder(s: string, t: string)
    requires AllDigits(s) && AllDigits(t) && |s| == |t|
    ensures CompareText(s, t) == CompareNat(Value(s), Value(t))
  {
    if s != "" {
      var n := |s| - 1;
      TextIsNumericOrder(s[..n], t[..n]);
      TextSnoc(s[..n], t[..n], s[n], t[n]);
      assert s == s[..n] + [s[n]] && t == t[..n] + [t[n]];
    }
  }

  /** Two numbers mislead only if they have different numbers of digits. */
  lemma SameLengthNeverMisleads(m: nat, n: nat)
    requires |Decimal(m)| == |Decimal(n)|
    ensures !Misleads(Numeric(m), Numeric(n))
  {
    TextIsNumericOrder(Decimal(n), Decimal(m));
    TextOrder(Decimal(n), Decimal(m));
  }

  lemma TwoTimesTenToThe19()
    ensures U64_LIMIT <= Scaled(2, 19) < Scaled(1, 20)
  {
    assert Scaled(2, 4) == 20000 && Scaled(1, 4) == 10000;
    assert Scaled(2, 8) == 10000 * Scaled(2, 4) && Scaled(1, 8) == 10000 * Scaled(1, 4);
    assert Scaled(2, 12) == 10000 * Scaled(2, 8) && Scaled(1, 12) == 10000 * Scaled(1, 8);
    assert Scaled(2, 16) == 10000 * Scaled(2, 12) && Scaled(1, 16) == 10000 * Scaled(1, 12);
  }

  // ---------- channel selection ----------

  /** The text under a tag; a tag may be missing or hold something other than a string. */
  /** The tag is there and its value is this text. */
  predicate SaysVersion(distTags: map<string, Option<string>>, tag: string, version: string) {
    tag in distTags && distTags[tag] == Some(version)
  }

  function TagText(distTags: map<string, Option<string>>, tag: string): Option<string> {
    if tag in distTags then distTags[tag] else None
  }

  predicate LocalAhead(local: Option<string>, latest: string) {
    local.Some? && Order(local.value, latest) == Some(Greater)
  }

  /** `latest` and then the allowed candidates, in tag order. */
  function Choices(distTags: map<string, Option<string>>, tags: seq<string>, latest: string): (r: seq<string>)
    ensures r != [] && r[0] == latest
    ensures forall c :: c in r <==> c == latest || exists t | t in tags :: TagText(distTags, t) == Some(c)
  {
    if tags == [] then [latest] else
      var rest, last := Choices(distTags, tags[..|tags| - 1], latest), tags[|tags| - 1];
      assert tags == tags[..|tags| - 1] + [last];
      if TagText(distTags, last).Some? then rest + [TagText(distTags, last).value] else rest
  }

  /** What selection needs of the order; `order(a, a)` has a value for the parseable `a`. */
  ghost predicate IsPreorder(order: (string, string) -> Option<Ordering>) {
    && (forall a, b :: order(a, b).Some? <==> order(a, a).Some? && order(b, b).Some?)
    && (forall a :: order(a, a).Some? ==> order(a, a).value.Equal?)
    && (forall a, b :: order(a, b).Some? ==> order(b, a) == Some(Reverse(order(a, b).value)))
    && (forall a, b, c :: order(a, b).Some? && order(b, c).Some? ==>
         order(a, c).Some? && Chains(order(a, b).value, order(b, c).value, order(a, c).value))
  }

  lemma OrderIsPreorder()
    ensures IsPreorder(Order)
  {
    forall a, b, c
      ensures Order(a, b).Some? <==> Order(a, a).Some? && Order(b, b).Some?
      ensures Order(a, a).Some? ==> Order(a, a).value.Equal?
      ensures Order(a, b).Some? ==> Order(b, a) == Some(Reverse(Order(a, b).value))
      ensures Order(a, b).Some? && Order(b, c).Some? ==>
                Order(a, c).Some? && Chains(Order(a, b).value, Order(b, c).value, Order(a, c).value)
    {
      OrderIsTotalPreorder(a, b, c);
    }
  }

  /** A maximum of the choices that can be compared, and the first of its rank. */
  ghost predicate IsFirstMaximum(x: string, choices: seq<string>, order: (string, string) -> Option<Ordering>) {
    exists k | 0 <= k < |choices| ::
      && choices[k] == x
      && order(x, x).Some?
      && (forall j | 0 <= j < |choices| :: order(choices[j], x) != Some(Greater))
      && (forall j | 0 <= j < k :: order(choices[j], x) != Some(Equal))
  }

  ghost predicate IsPick(
    distTags: map<string, Option<string>>, tags: seq<string>, local: Option<string>, pick: Option<string>)
  {
    && ((forall latest :: !SaysVersion(distTags, "latest", latest)) ==> pick == None)
    && forall latest :: SaysVersion(distTags, "latest", latest) ==>
         if !LocalAhead(local, latest) then pick == Some(latest)
         else pick.Some? && IsFirstMaximum(pick.value, Choices(distTags, tags, latest), Order)
  }

  lemma NextChoice(best: string, choices: seq<string>, c: string, order: (string, string) -> Option<Ordering>)
    requires IsPreorder(order) && IsFirstMaximum(best, choices, order)
    ensures IsFirstMaximum(if order(c, best) == Some(Greater) then c else best, choices + [c], order)
  {
    var k :| 0 <= k < |choices| && choices[k] == best && order(best, best).Some?
      && (forall j | 0 <= j < |choices| :: order(choices[j], best) != Some(Greater))
      && (forall j | 0 <= j < k :: order(choices[j], best) != Some(Equal));
    var all := choices + [c];
    if order(c, best) == Some(Greater) {
      assert order(best, c) == Some(Less);
      forall j | 0 <= j < |choices| ensures order(choices[j], c) == Some(Less) || order(choices[j], c) == None {
        assert order(choices[j], best) != Some(Greater);
      }
      assert all[|choices|] == c;
    } else {
      assert all[k] == best;
    }
  }

  lemma TagIs(distTags: map<string, Option<string>>, tag: string, version: string)
    ensures TagText(distTags, tag) == Some(version) <==> SaysVersion(distTags, tag, version)
  {
  }

  lemma NoLatest(distTags: map<string, Option<string>>, tags: seq<string>, local: Option<string>)
    requires TagText(distTags, "latest").None?
    ensures IsPick(distTags, tags, local, None)
  {
    forall latest ensures !SaysVersion(distTags, "latest", latest) {
      TagIs(distTags, "latest", latest);
    }
  }

  lemma PickFor(
      distTags: map<string, Option<string>>, tags: seq<string>, local: Option<string>, latest: string, pick: string)
    requires TagText(distTags, "latest") == Some(latest)
    requires if !LocalAhead(local, latest) then pick == latest
             else IsFirstMaximum(pick, Choices(distTags, tags, latest), Order)
    ensures IsPick(distTags, tags, local, Some(pick))
  {
    TagIs(distTags, "latest", latest);
    forall other | SaysVersion(distTags, "latest", other) ensures other == latest {
      TagIs(distTags, "latest", other);
    }
  }

  /** `latest`, unless the local version is strictly ahead of it. */
  method PickLatestVersion(distTags: map<string, Option<string>>, tags: seq<string>, local: Option<string>)
    returns (pick: Option<string>)
    ensures IsPick(distTags, tags, local, pick)
  {
    var latest := TagText(distTags, "latest");
    if latest.None? {
      NoLatest(distTags, tags, local);
      return None;
    }
    var localAhead := false;
    if local.Some? {
      var order := CompareSemver(local.value, latest.value);
      localAhead := order == Some(Greater);
    }
    if localAhead {
      AheadIsComparable(local, latest.value);
    }
    if tags == [] || !localAhead {
      PickFor(distTags, tags, local, latest.value, latest.value);
      return latest;
    }
    var best := PickBest(distTags, tags, latest.value);
    PickFor(distTags, tags, local, latest.value, best);
    return Some(best);
  }

  lemma OnlyChoice(x: string, order: (string, string) -> Option<Ordering>)
    requires order(x, x) == Some(Equal)
    ensures IsFirstMaximum(x, [x], order)
  {
    assert [x][0] == x;
  }

  lemma AheadIsComparable(local: Option<string>, latest: string)
    requires LocalAhead(local, latest)
    ensures Order(latest, latest) == Some(Equal)
    ensures IsFirstMaximum(latest, [latest], Order)
  {
    OrderIsTotalPreorder(local.value, latest, latest);
    OrderIsTotalPreorder(latest, latest, latest);
    OnlyChoice(latest, Order);
  }

  /** The loop of the selection, from a `latest` that can be compared. */
  method PickBest(distTags: map<string, Option<string>>, tags: seq<string>, latest: string) returns (best: string)
    requires Order(latest, latest) == Some(Equal)
    ensures IsFirstMaximum(best, Choices(distTags, tags, latest), Order)
  {
    best := latest;
    for i := 0 to |tags|
      invariant IsFirstMaximum(best, Choices(distTags, tags[..i], latest), Order)
    {
      ghost var before := Choices(distTags, tags[..i], latest);
      assert tags[..i + 1][..i] == tags[..i];
      var candidate := TagText(distTags, tags[i]);
      if candidate.Some? {
        OrderIsPreorder();
        NextChoice(best, before, candidate.value, Order);
        var order := CompareSemver(candidate.value, best);
        if order == Some(Greater) {
          best := candidate.value;
        }
      }
    }
    assert tags[..|tags|] == tags;
  }

  lemma FirstMaximumBeats(x: string, choices: seq<string>, y: string, order: (string, string) -> Option<Ordering>)
    requires IsPreorder(order) && IsFirstMaximum(x, choices, order) && y in choices
    ensures x in choices && order(x, x).Some? && order(y, x) != Some(Greater)
    ensures x != choices[0] && order(choices[0], choices[0]).Some? ==> order(choices[0], x) == Some(Less)
  {
    var j :| 0 <= j < |choices| && choices[j] == y;
    assert order(choices[j], x) != Some(Greater);
    assert order(choices[0], x) != Some(Greater);
  }

  /** The pick never ranks below `latest`, and strictly above it only for a local version ahead. */
  lemma NeverBelowLatest(
      distTags: map<string, Option<string>>, tags: seq<string>, local: Option<string>, pick: string, latest: string)
    requires SaysVersion(distTags, "latest", latest) && IsPick(distTags, tags, local, Some(pick))
    requires pick != latest
    ensures LocalAhead(local, latest) && Order(latest, pick) == Some(Less)
    ensures exists t | t in tags :: SaysVersion(distTags, t, pick)
  {
    forall t ensures TagText(distTags, t) == Some(pick) <==> SaysVersion(distTags, t, pick) {
      TagIs(distTags, t, pick);
    }
    OrderIsPreorder();
    FirstMaximumBeats(pick, Choices(distTags, tags, latest), pick, Order);
  }

  /** The same tags in any order lead to answers of the same precedence. */
  lemma TagOrderIsIrrelevant(
      distTags: map<string, Option<string>>, tags: seq<string>, others: seq<string>, local: Option<string>,
      pick: Option<string>, other: Option<string>)
    requires forall t :: t in tags <==> t in others
    requires IsPick(distTags, tags, local, pick) && IsPick(distTags, others, local, other)
    ensures pick == other || (pick.Some? && other.Some? && Order(pick.value, other.value) == Some(Equal))
  {
    if pick != other {
      var latest :| SaysVersion(distTags, "latest", latest);
      SameRank(pick.value, Choices(distTags, tags, latest), other.value, Choices(distTags, others, latest));
    }
  }

  lemma SameRank(x: string, ours: seq<string>, y: string, theirs: seq<string>)
    requires IsFirstMaximum(x, ours, Order) && IsFirstMaximum(y, theirs, Order)
    requires forall c :: c in ours <==> c in theirs
    ensures Order(x, y) == Some(Equal)
  {
    OrderIsPreorder();
    FirstMaximumBeats(x, ours, x, Order);
    FirstMaximumBeats(y, theirs, y, Order);
    FirstMaximumBeats(x, ours, y, Order);
    FirstMaximumBeats(y, theirs, x, Order);
  }
}
