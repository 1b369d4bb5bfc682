/** Discovery of a tool's installations: search, deduplicate, order, pick the default. */
module Installations {
  import opened Text

  datatype InstallSource = Nvm | Homebrew | Volta | Fnm | Mise | Bun | Pnpm | Scoop | Pip | System

  datatype ToolInstallation = ToolInstallation(
    path: string,
    version: Option<string>,
    runnable: bool,
    error: Option<string>,
    source: InstallSource,
    isPathDefault: bool,
    realPath: string)

  /** What running a file with `--version` shows. */
  datatype ProbeOutcome = Runs(version: string) | Broken(error: Option<string>)

  datatype FileSystem = FileSystem(
    present: string -> bool,
    canonical: string -> Option<string>,
    probe: string -> ProbeOutcome)
  {
    /** The canonical path, or the path itself where it cannot be resolved. */
    function Real(p: string): string {
      match canonical(p)
      case Some(r) => r
      case None => p
    }
  }

  /** Where an executable was installed from, by the directories in its path; the order matters. */
  function InferInstallSource(path: string): InstallSource {
    var s := ToAsciiLower(ReplaceChar(path, '\\', "/"));
    if Contains(s, "/.nvm/") then Nvm
    else if Contains(s, "/homebrew/") || Contains(s, "/cellar/") then Homebrew
    else if Contains(s, "/.volta/") || Contains(s, "/volta/") then Volta
    else if Contains(s, "fnm_multishells") then Fnm
    else if Contains(s, "/mise/") then Mise
    else if Contains(s, "/.bun/") then Bun
    else if Contains(s, "/pnpm/") then Pnpm
    else if Contains(s, "/scoop/") then Scoop
    else if Contains(s, "/library/python") || Contains(s, "/scripts/") || Contains(s, "/site-packages/") then Pip
    else System
  }

  // ---------- search paths ----------

  predicate Distinct<T(==)>(s: seq<T>) {
    forall i, j | 0 <= i < j < |s| :: s[i] != s[j]
  }

  /** The non-empty elements of `added` that neither `paths` nor an earlier element has, after `paths`. */
  function Extended(paths: seq<string>, added: seq<string>): (r: seq<string>)
    ensures paths <= r
    ensures Distinct(paths) ==> Distinct(r)
    ensures forall p :: p in r <==> p in paths || (p in added && p != "")
    decreases |added|
  {
    if added == [] then paths
    else if added[0] == "" || added[0] in paths then Extended(paths, added[1..])
    else Extended(paths + [added[0]], added[1..])
  }

  class SearchPaths {
    var paths: seq<string>

    constructor ()
      ensures paths == []
    {
      paths := [];
    }

    method PushUnique(path: string)
      modifies this
      ensures paths == Extended(old(paths), [path])
    {
      assert [path][1..] == [];
      if path == "" { return; }
      if path !in paths {
        paths := paths + [path];
      }
    }

    /** `join(dir)` is the directory with the caller's suffix, if it gave one. */
    method ExtendFromPathList(list: seq<string>, join: string -> string)
      modifies this
      ensures paths == Extended(old(paths), seq(|list|, i requires 0 <= i < |list| => join(list[i])))
    {
      ghost var added := seq(|list|, i requires 0 <= i < |list| => join(list[i]));
      for k := 0 to |list|
        invariant Extended(paths, added[k..]) == Extended(old(paths), added)
      {
        assert added[k..][0] == join(list[k]) && added[k..][1..] == added[k + 1..];
        PushUnique(join(list[k]));
        assert [join(list[k])][1..] == [];
      }
    }
  }

  // ---------- enumeration ----------

  function Installed(p: string, fs: FileSystem, pathDefault: Option<string>): ToolInstallation {
    var realPath := fs.Real(p);
    var outcome := fs.probe(p);
    ToolInstallation(
      p,
      if outcome.Runs? then Some(outcome.version) else None,
      outcome.Runs?,
      if outcome.Runs? then None else outcome.error,
      InferInstallSource(p),
      pathDefault == Some(realPath),
      realPath)
  }

  /** The installations the candidates add, in order, to real files already seen. */
  function Discover(candidates: seq<string>, seen: set<string>, fs: FileSystem, pathDefault: Option<string>)
    : seq<ToolInstallation>
  {
    if candidates == [] then []
    else
      var p := candidates[0];
      if !fs.present(p) || fs.Real(p) in seen then Discover(candidates[1..], seen, fs, pathDefault)
      else [Installed(p, fs, pathDefault)] + Discover(candidates[1..], seen + {fs.Real(p)}, fs, pathDefault)
  }

  /** What a stable sort by "PATH default first" makes of a list. */
  function DefaultFirst(installs: seq<ToolInstallation>): seq<ToolInstallation> {
    Keep(installs, true) + Keep(installs, false)
  }

  function Keep(installs: seq<ToolInstallation>, isDefault: bool): (r: seq<ToolInstallation>)
    ensures forall x | x in r :: x in installs && x.isPathDefault == isDefault
    ensures forall x | x in installs && x.isPathDefault == isDefault :: x in r
  {
    if installs == [] then []
    else (if installs[0].isPathDefault == isDefault then [installs[0]] else []) + Keep(installs[1..], isDefault)
  }

  function FlattenDirs(dirs: seq<seq<string>>): seq<string> {
    if dirs == [] then [] else dirs[0] + FlattenDirs(dirs[1..])
  }

  /** `dirs[i]` lists the candidate executables of the i-th search directory. */
  method EnumerateToolInstallations(dirs: seq<seq<string>>, fs: FileSystem, pathDefault: Option<string>)
    returns (installs: seq<ToolInstallation>)
    ensures installs == DefaultFirst(Discover(FlattenDirs(dirs), {}, fs, pathDefault))
  {
    var seen: set<string> := {};
    installs := [];
    ghost var all := Discover(FlattenDirs(dirs), {}, fs, pathDefault);
    for d := 0 to |dirs|
      invariant installs + Discover(FlattenDirs(dirs[d..]), seen, fs, pathDefault) == all
    {
      ghost var later := FlattenDirs(dirs[d + 1..]);
      assert dirs[d..][0] == dirs[d] && dirs[d..][1..] == dirs[d + 1..];
      assert dirs[d][0..] == dirs[d];
      for k := 0 to |dirs[d]|
        invariant installs + Discover(dirs[d][k..] + later, seen, fs, pathDefault) == all
      {
        var p := dirs[d][k];
        ghost var rest := dirs[d][k + 1..] + later;
        assert dirs[d][k..] + later == [p] + rest;
        assert ([p] + rest)[1..] == rest;
        if !fs.present(p) {
          continue;
        }
        var realPath := fs.Real(p);
        if realPath in seen {
          continue;
        }
        seen := seen + {realPath};
        ConcatAssociates(installs, [Installed(p, fs, pathDefault)], Discover(rest, seen, fs, pathDefault));
        installs := installs + [Installed(p, fs, pathDefault)];
      }
      assert dirs[d][|dirs[d]|..] + later == later;
    }
    assert dirs[|dirs|..] == [];
    NothingAfter(installs);
    installs := DefaultFirst(installs);
  }

  // ---------- what enumeration finds ----------

  function RealPaths(installs: seq<ToolInstallation>): set<string> {
    set x | x in installs :: x.realPath
  }

  /** The real files the candidates lead to. */
  function Files(candidates: seq<string>, fs: FileSystem): set<string> {
    set p | p in candidates && fs.present(p) :: fs.Real(p)
  }

  ghost predicate DistinctFiles(installs: seq<ToolInstallation>) {
    forall i, j | 0 <= i < j < |installs| :: installs[i].realPath != installs[j].realPath
  }

  /** `p` at position k is the first present candidate that leads to its real file. */
  ghost predicate FirstEntry(candidates: seq<string>, k: nat, fs: FileSystem)
    requires k < |candidates|
  {
    && fs.present(candidates[k])
    && forall j | 0 <= j < k :: fs.present(candidates[j]) ==> fs.Real(candidates[j]) != fs.Real(candidates[k])
  }

  lemma FilesSplit(candidates: seq<string>, fs: FileSystem)
    requires candidates != []
    ensures Files(candidates, fs)
         == (if fs.present(candidates[0]) then {fs.Real(candidates[0])} else {}) + Files(candidates[1..], fs)
  {
    assert candidates == [candidates[0]] + candidates[1..];
  }

  lemma RealPathsSplit(x: ToolInstallation, later: seq<ToolInstallation>)
    ensures RealPaths([x] + later) == {x.realPath} + RealPaths(later)
  {
  }

  lemma DistinctSplit(x: ToolInstallation, later: seq<ToolInstallation>)
    requires DistinctFiles(later) && x.realPath !in RealPaths(later)
    ensures DistinctFiles([x] + later)
  {
    assert forall i | 0 <= i < |later| :: later[i].realPath in RealPaths(later);
  }

  /** Every present real file is found once, by the first candidate that leads to it. */
  lemma {:induction false} DiscoverIsExact(
    candidates: seq<string>, seen: set<string>, fs: FileSystem, pathDefault: Option<string>)
    ensures var found := Discover(candidates, seen, fs, pathDefault);
            && DistinctFiles(found)
            && RealPaths(found) == Files(candidates, fs) - seen
  {
    if candidates != [] {
      var p, rest := candidates[0], candidates[1..];
      FilesSplit(candidates, fs);
      var isNew := fs.present(p) && fs.Real(p) !in seen;
      var seen' := if isNew then seen + {fs.Real(p)} else seen;
      DiscoverIsExact(rest, seen', fs, pathDefault);
      var found, later := Discover(candidates, seen, fs, pathDefault), Discover(rest, seen', fs, pathDefault);
      if isNew {
        assert found == [Installed(p, fs, pathDefault)] + later;
        RealPathsSplit(Installed(p, fs, pathDefault), later);
        DistinctSplit(Installed(p, fs, pathDefault), later);
      }
    }
  }

  lemma FirstEntryShifts(candidates: seq<string>, k: nat, fs: FileSystem)
    requires k + 1 < |candidates| && FirstEntry(candidates[1..], k, fs)
    requires fs.present(candidates[0]) ==> fs.Real(candidates[0]) != fs.Real(candidates[k + 1])
    ensures FirstEntry(candidates, k + 1, fs)
  {
    var rest := candidates[1..];
    forall j | 0 <= j <= k ensures fs.present(candidates[j]) ==> fs.Real(candidates[j]) != fs.Real(candidates[k + 1]) {
      if j > 0 { assert candidates[j] == rest[j - 1]; }
    }
  }

  /** `found` are the installations at the increasing positions `at`, each the first entry to its file. */
  ghost predicate Located(
    candidates: seq<string>, seen: set<string>, fs: FileSystem, pathDefault: Option<string>,
    found: seq<ToolInstallation>, at: seq<nat>)
  {
    && |at| == |found|
    && (forall i, j | 0 <= i < j < |at| :: at[i] < at[j])
    && (forall i | 0 <= i < |at| ::
         && at[i] < |candidates| && FirstEntry(candidates, at[i], fs)
         && fs.Real(candidates[at[i]]) !in seen
         && found[i] == Installed(candidates[at[i]], fs, pathDefault))
  }

  lemma LocatedShifts(
    candidates: seq<string>, seen: set<string>, fs: FileSystem, pathDefault: Option<string>,
    found: seq<ToolInstallation>, at: seq<nat>) returns (shifted: seq<nat>)
    requires candidates != []
    requires fs.present(candidates[0]) ==> fs.Real(candidates[0]) in seen
    requires Located(candidates[1..], seen, fs, pathDefault, found, at)
    ensures Located(candidates, seen, fs, pathDefault, found, shifted)
    ensures forall i | 0 <= i < |shifted| :: shifted[i] > 0
  {
    shifted := seq(|at|, i requires 0 <= i < |at| => at[i] + 1);
    forall i | 0 <= i < |at| ensures FirstEntry(candidates, shifted[i], fs) {
      FirstEntryShifts(candidates, at[i], fs);
    }
  }

  /** Discovery follows the search order. */
  lemma {:induction false} DiscoverInSearchOrder(
    candidates: seq<string>, seen: set<string>, fs: FileSystem, pathDefault: Option<string>) returns (at: seq<nat>)
    ensures Located(candidates, seen, fs, pathDefault, Discover(candidates, seen, fs, pathDefault), at)
  {
    if candidates == [] {
      at := [];
    } else if fs.present(candidates[0]) && fs.Real(candidates[0]) !in seen {
      var seen' := seen + {fs.Real(candidates[0])};
      at := DiscoverInSearchOrder(candidates[1..], seen', fs, pathDefault);
      at := LocatedShifts(candidates, seen', fs, pathDefault, Discover(candidates[1..], seen', fs, pathDefault), at);
      at := [0] + at;
    } else {
      at := DiscoverInSearchOrder(candidates[1..], seen, fs, pathDefault);
      at := LocatedShifts(candidates, seen, fs, pathDefault, Discover(candidates[1..], seen, fs, pathDefault), at);
    }
  }

  lemma {:induction false} KeepIsPartition(installs: seq<ToolInstallation>)
    ensures multiset(DefaultFirst(installs)) == multiset(installs)
  {
    if installs != [] {
      KeepIsPartition(installs[1..]);
      assert installs == [installs[0]] + installs[1..];
    }
  }

  /** Sorting a list of distinct files moves its only possible default to the front and nothing else. */
  lemma {:induction false} DefaultFirstOrder(installs: seq<ToolInstallation>, pathDefault: Option<string>)
    requires DistinctFiles(installs)
    requires forall x | x in installs :: x.isPathDefault == (pathDefault == Some(x.realPath))
    ensures var sorted := DefaultFirst(installs);
            && multiset(sorted) == multiset(installs)
            && DistinctFiles(sorted)
            && |Keep(installs, true)| <= 1
            && (forall i | 0 < i < |sorted| :: !sorted[i].isPathDefault)
  {
    KeepIsPartition(installs);
    KeepDistinct(installs, true);
    KeepDistinct(installs, false);
    KeepOneDefault(installs, pathDefault);
  }

  lemma KeepOneDefault(installs: seq<ToolInstallation>, pathDefault: Option<string>)
    requires DistinctFiles(Keep(installs, true))
    requires forall x | x in installs :: x.isPathDefault == (pathDefault == Some(x.realPath))
    ensures |Keep(installs, true)| <= 1
  {
    if |Keep(installs, true)| > 1 {
      TwoDefaultsShareAFile(Keep(installs, true), pathDefault);
    }
  }

  lemma TwoDefaultsShareAFile(defaults: seq<ToolInstallation>, pathDefault: Option<string>)
    requires |defaults| > 1
    requires forall x | x in defaults :: pathDefault == Some(x.realPath)
    ensures !DistinctFiles(defaults)
  {
    assert defaults[0] in defaults && defaults[1] in defaults;
  }

  lemma {:induction false} KeepDistinct(installs: seq<ToolInstallation>, isDefault: bool)
    requires DistinctFiles(installs)
    ensures DistinctFiles(Keep(installs, isDefault))
  {
    if installs != [] {
      KeepDistinct(installs[1..], isDefault);
      var later := Keep(installs[1..], isDefault);
      forall i | 0 <= i < |later| ensures later[i].realPath != installs[0].realPath {
        assert later[i] in installs[1..];
      }
    }
  }

  lemma {:induction false} RealPathsCount(installs: seq<ToolInstallation>)
    requires DistinctFiles(installs)
    ensures |RealPaths(installs)| == |installs|
  {
    if installs == [] {
      assert RealPaths(installs) == {};
    } else {
      RealPathsCount(installs[1..]);
      assert RealPaths(installs) == {installs[0].realPath} + RealPaths(installs[1..]);
    }
  }

  // ---------- decisions ----------

  function FirstDefault(installs: seq<ToolInstallation>): Option<ToolInstallation> {
    if installs == [] then None
    else if installs[0].isPathDefault then Some(installs[0])
    else FirstDefault(installs[1..])
  }

  function DefaultInstall(installs: seq<ToolInstallation>): Option<ToolInstallation> {
    var first := FirstDefault(installs);
    if first.Some? then first
    else if |installs| == 1 then Some(installs[0])
    else None
  }

  function Enumerated(dirs: seq<seq<string>>, fs: FileSystem, pathDefault: Option<string>): seq<ToolInstallation> {
    DefaultFirst(Discover(FlattenDirs(dirs), {}, fs, pathDefault))
  }

  /**
   Enumeration lists every file the search reaches exactly once; at most one entry is the PATH
   default and it is first; the other entries keep the search order.
   */
  lemma EnumerationIsExact(dirs: seq<seq<string>>, fs: FileSystem, pathDefault: Option<string>)
    ensures var installs := Enumerated(dirs, fs, pathDefault);
            var found := Discover(FlattenDirs(dirs), {}, fs, pathDefault);
            && DistinctFiles(installs)
            && RealPaths(installs) == Files(FlattenDirs(dirs), fs)
            && (forall x | x in installs :: x.isPathDefault == (pathDefault == Some(x.realPath)))
            && (forall i | 0 < i < |installs| :: !installs[i].isPathDefault)
            && multiset(installs) == multiset(found)
            && (if installs != [] && installs[0].isPathDefault then installs[1..] else installs) == Keep(found, false)
  {
    var candidates := FlattenDirs(dirs);
    var found := Discover(candidates, {}, fs, pathDefault);
    DiscoverIsExact(candidates, {}, fs, pathDefault);
    DiscoverMarksDefault(candidates, fs, pathDefault);
    DefaultFirstOrder(found, pathDefault);
    DefaultFirstTail(found);
    SameElements(Enumerated(dirs, fs, pathDefault), found);
  }

  /** What running the file showed: it runs with this version, or it does not, with this error. */
  predicate Shows(x: ToolInstallation, outcome: ProbeOutcome) {
    match outcome
    case Runs(version) => x.runnable && x.version == Some(version) && x.error == None
    case Broken(error) => !x.runnable && x.version == None && x.error == error
  }

  /** Every entry is a present candidate and says what was seen at its path. */
  lemma EntriesSayWhatWasSeen(
    dirs: seq<seq<string>>, fs: FileSystem, pathDefault: Option<string>, x: ToolInstallation)
    requires x in Enumerated(dirs, fs, pathDefault)
    ensures x.path in FlattenDirs(dirs) && fs.present(x.path) && Shows(x, fs.probe(x.path))
    ensures fs.canonical(x.path) == Some(x.realPath) || (fs.canonical(x.path) == None && x.realPath == x.path)
  {
    var candidates := FlattenDirs(dirs);
    var found := Discover(candidates, {}, fs, pathDefault);
    KeepIsPartition(found);
    SameElements(Enumerated(dirs, fs, pathDefault), found);
    var at := DiscoverInSearchOrder(candidates, {}, fs, pathDefault);
    var i :| 0 <= i < |found| && found[i] == x;
    assert x == Installed(candidates[at[i]], fs, pathDefault);
  }

  lemma DiscoverMarksDefault(candidates: seq<string>, fs: FileSystem, pathDefault: Option<string>)
    ensures forall x | x in Discover(candidates, {}, fs, pathDefault) ::
              x.isPathDefault == (pathDefault == Some(x.realPath))
  {
    var at := DiscoverInSearchOrder(candidates, {}, fs, pathDefault);
  }

  lemma SameElements(a: seq<ToolInstallation>, b: seq<ToolInstallation>)
    requires multiset(a) == multiset(b)
    ensures (forall x :: x in a <==> x in b) && RealPaths(a) == RealPaths(b)
  {
    forall x ensures x in a <==> x in b {
      assert x in multiset(a) <==> x in multiset(b);
    }
  }

  lemma DefaultFirstTail(found: seq<ToolInstallation>)
    requires |Keep(found, true)| <= 1
    ensures var installs := DefaultFirst(found);
            (if installs != [] && installs[0].isPathDefault then installs[1..] else installs) == Keep(found, false)
  {
    var defaults, others := Keep(found, true), Keep(found, false);
    if |defaults| == 1 {
      assert defaults[0] in defaults;
      assert (defaults + others)[1..] == others;
    } else {
      assert others != [] ==> others[0] in others;
      assert defaults + others == others;
    }
  }

  lemma {:induction false} FirstDefaultFinds(installs: seq<ToolInstallation>)
    ensures match FirstDefault(installs)
            case Some(x) => x in installs && x.isPathDefault
            case None => forall x | x in installs :: !x.isPathDefault
  {
    if installs != [] && !installs[0].isPathDefault {
      FirstDefaultFinds(installs[1..]);
    }
  }

  /**
   The chosen installation is the PATH default when the search reaches it, otherwise the
   only file reached, otherwise nothing; and there are two entries to ask about exactly
   when there are two files.
   */
  lemma DefaultInstallIsExact(dirs: seq<seq<string>>, fs: FileSystem, pathDefault: Option<string>)
    ensures var installs := Enumerated(dirs, fs, pathDefault);
            var files := Files(FlattenDirs(dirs), fs);
            var chosen := DefaultInstall(installs);
            && |installs| == |files|
            && (chosen.Some? ==> chosen.value in installs)
            && (if pathDefault.Some? && pathDefault.value in files
                then chosen.Some? && chosen.value.realPath == pathDefault.value
                else if |files| == 1 then chosen.Some? && files == {chosen.value.realPath}
                else chosen.None?)
  {
    var installs := Enumerated(dirs, fs, pathDefault);
    EnumerationIsExact(dirs, fs, pathDefault);
    RealPathsCount(installs);
    DefaultInstallByFile(installs, pathDefault);
  }

  lemma DefaultInstallByFile(installs: seq<ToolInstallation>, pathDefault: Option<string>)
    requires forall x | x in installs :: x.isPathDefault == (pathDefault == Some(x.realPath))
    ensures var chosen := DefaultInstall(installs);
            && (chosen.Some? ==> chosen.value in installs)
            && (if pathDefault.Some? && pathDefault.value in RealPaths(installs)
                then chosen.Some? && chosen.value.realPath == pathDefault.value
                else if |installs| == 1 then chosen.Some? && RealPaths(installs) == {chosen.value.realPath}
                else chosen.None?)
  {
    FirstDefaultFinds(installs);
    if pathDefault.Some? && pathDefault.value in RealPaths(installs) {
      var x :| x in installs && x.realPath == pathDefault.value;
      assert x.isPathDefault;
    } else if |installs| == 1 {
      assert installs == [installs[0]];
    }
  }

  function Versions(installs: seq<ToolInstallation>): set<Option<string>> {
    set x | x in installs :: x.version
  }

  predicate IsConflicting(installs: seq<ToolInstallation>) {
    |installs| >= 2 &&
    (|Versions(installs)| > 1
     || ((exists x | x in installs :: x.runnable) && (exists x | x in installs :: !x.runnable)))
  }

  lemma SingletonSet<T>(s: set<T>, x: T)
    requires x in s && forall y | y in s :: y == x
    ensures |s| == 1
  {
    assert s == {x};
  }

  lemma TwoInSet<T>(s: set<T>, x: T, y: T)
    requires x in s && y in s && x != y
    ensures |s| > 1
  {
    assert |{x, y}| == 2;
    assert y in s - {x};
    assert |s - {x}| == |s| - 1;
  }

  /** A conflict is two entries that differ in version or in whether they run. */
  lemma ConflictIsADifference(installs: seq<ToolInstallation>)
    ensures IsConflicting(installs) <==>
            exists x, y :: x in installs && y in installs && (x.version != y.version || x.runnable != y.runnable)
  {
    if x, y :| x in installs && y in installs && (x.version != y.version || x.runnable != y.runnable) {
      assert |installs| >= 2;
      if x.version != y.version {
        TwoInSet(Versions(installs), x.version, y.version);
      }
    } else if IsConflicting(installs) {
      assert installs[0] in installs;
      SingletonSet(Versions(installs), installs[0].version);
    }
  }
}
