/** Migration of the per-application MCP tables of version 3.6 to one unified table. */
module McpMigration {
  import opened Text

  datatype Json =
    | Null
    | Bool(flag: bool)
    | Number(value: real)
    | Str(text: string)
    | Arr(items: seq<Json>)
    | Obj(fields: map<string, Json>)

  /** `Value::get` with a string key: anything but an object has no keys. */
  function Get(value: Json, key: string): Option<Json> {
    if value.Obj? && key in value.fields then Some(value.fields[key]) else None
  }

  function GetText(value: Json, key: string): Option<string> {
    match Get(value, key)
    case Some(Str(text)) => Some(text)
    case _ => None
  }

  function OnlyTexts(items: seq<Json>): seq<string> {
    if items == [] then []
    else (if items[0].Str? then [items[0].text] else []) + OnlyTexts(items[1..])
  }

  // ---------- application flags ----------

  datatype AppType = Claude | ClaudeDesktop | Codex | Gemini | OpenCode | OpenClaw | Hermes

  predicate SupportsMcp(app: AppType) {
    !app.ClaudeDesktop? && !app.OpenClaw?
  }

  datatype McpApps = McpApps(claude: bool, codex: bool, gemini: bool, opencode: bool, hermes: bool) {
    predicate IsEnabledFor(app: AppType) {
      match app
      case Claude => claude
      case Codex => codex
      case Gemini => gemini
      case OpenCode => opencode
      case OpenClaw => false
      case Hermes => hermes
      case ClaudeDesktop => false
    }

    /** Changes the flag of one application; the two without MCP cannot be enabled. */
    function SetEnabledFor(app: AppType, enabled: bool): (r: McpApps)
      ensures forall other: AppType :: r.IsEnabledFor(other) ==
                if other == app && SupportsMcp(app) then enabled else IsEnabledFor(other)
    {
      match app
      case Claude => this.(claude := enabled)
      case Codex => this.(codex := enabled)
      case Gemini => this.(gemini := enabled)
      case OpenCode => this.(opencode := enabled)
      case OpenClaw => this
      case Hermes => this.(hermes := enabled)
      case ClaudeDesktop => this
    }

    method EnabledApps() returns (apps: seq<AppType>)
      ensures forall app :: app in apps <==> IsEnabledFor(app)
      ensures forall i, j | 0 <= i < j < |apps| :: apps[i] != apps[j]
    {
      apps := [];
      if claude {
        apps := apps + [Claude];
      }
      if codex {
        apps := apps + [Codex];
      }
      if gemini {
        apps := apps + [Gemini];
      }
      if opencode {
        apps := apps + [OpenCode];
      }
      if hermes {
        apps := apps + [Hermes];
      }
    }

    predicate IsEmpty()
      ensures IsEmpty() <==> forall app :: !IsEnabledFor(app)
    {
      assert claude == IsEnabledFor(Claude) && codex == IsEnabledFor(Codex) && gemini == IsEnabledFor(Gemini)
          && opencode == IsEnabledFor(OpenCode) && hermes == IsEnabledFor(Hermes);
      !claude && !codex && !gemini && !opencode && !hermes
    }
  }

  const NO_APPS := McpApps(false, false, false, false, false)

  // ---------- servers ----------

  /** Everything an entry says about a server besides who uses it. */
  datatype Details = Details(
    name: string,
    server: Json,
    description: Option<string>,
    homepage: Option<string>,
    docs: Option<string>,
    tags: seq<string>)

  datatype McpServer = McpServer(id: string, details: Details, apps: McpApps)

  type Servers = map<string, Json>

  type Unified = map<string, McpServer>

  /** An entry without a boolean `enabled` counts as enabled. */
  predicate EntryEnabled(entry: Json) {
    match Get(entry, "enabled")
    case Some(Bool(flag)) => flag
    case _ => true
  }

  function EntryDetails(id: string, entry: Json): Details {
    var name := GetText(entry, "name");
    var server := Get(entry, "server");
    var tags := Get(entry, "tags");
    Details(
      if name.Some? then name.value else id,
      if server.Some? then server.value else Obj(map[]),
      GetText(entry, "description"),
      GetText(entry, "homepage"),
      GetText(entry, "docs"),
      if tags.Some? && tags.value.Arr? then OnlyTexts(tags.value.items) else [])
  }

  /** The entry holds the literal `"enabled": false`. */
  predicate SaysDisabled(entry: Json) {
    entry.Obj? && "enabled" in entry.fields && entry.fields["enabled"] == Bool(false)
  }

  predicate SaysText(entry: Json, key: string, text: string) {
    entry.Obj? && key in entry.fields && entry.fields[key] == Str(text)
  }

  /** `texts` are the texts among the items, at the positions `at`, and there are no others. */
  predicate TextsAt(texts: seq<string>, items: seq<Json>, at: seq<nat>) {
    && |at| == |texts|
    && (forall i | 0 <= i < |at| :: at[i] < |items| && items[at[i]] == Str(texts[i]))
    && (forall i, j | 0 <= i < j < |at| :: at[i] < at[j])
    && (forall k | 0 <= k < |items| :: items[k].Str? ==> k in at)
  }

  ghost predicate AreTexts(texts: seq<string>, items: seq<Json>) {
    exists at: seq<nat> :: TextsAt(texts, items, at)
  }

  /** Everything about a server but its flags is what the entry says, or the default. */
  ghost predicate DescribedBy(server: McpServer, id: string, entry: Json) {
    var d := server.details;
    && server.id == id
    && (forall text :: SaysText(entry, "name", text) ==> d.name == text)
    && (!(entry.Obj? && "name" in entry.fields && entry.fields["name"].Str?) ==> d.name == id)
    && (if entry.Obj? && "server" in entry.fields then d.server == entry.fields["server"] else d.server == Obj(map[]))
    && (forall text :: d.description == Some(text) <==> SaysText(entry, "description", text))
    && (forall text :: d.homepage == Some(text) <==> SaysText(entry, "homepage", text))
    && (forall text :: d.docs == Some(text) <==> SaysText(entry, "docs", text))
    && (if entry.Obj? && "tags" in entry.fields && entry.fields["tags"].Arr?
        then AreTexts(d.tags, entry.fields["tags"].items) else d.tags == [])
  }

  lemma {:induction false} OnlyTextsAreTexts(items: seq<Json>) returns (at: seq<nat>)
    ensures TextsAt(OnlyTexts(items), items, at)
  {
    if items == [] {
      at := [];
    } else {
      var later := OnlyTextsAreTexts(items[1..]);
      at := TextsShift(items, OnlyTexts(items[1..]), later);
      if items[0].Str? {
        at := FirstText(items, OnlyTexts(items[1..]), at);
      }
    }
  }

  lemma TextsShift(items: seq<Json>, texts: seq<string>, later: seq<nat>) returns (at: seq<nat>)
    requires items != [] && TextsAt(texts, items[1..], later)
    ensures |at| == |texts|
    ensures forall i | 0 <= i < |at| :: 0 < at[i] < |items| && items[at[i]] == Str(texts[i])
    ensures forall i, j | 0 <= i < j < |at| :: at[i] < at[j]
    ensures forall k | 0 < k < |items| :: items[k].Str? ==> k in at
    ensures !items[0].Str? ==> TextsAt(texts, items, at)
  {
    at := Shifted(later);
    forall i | 0 <= i < |at| ensures 0 < at[i] < |items| && items[at[i]] == Str(texts[i]) {
      assert items[at[i]] == items[1..][later[i]];
    }
    forall k | 0 < k < |items| && items[k].Str? ensures k in at {
      assert items[1..][k - 1] == items[k];
      InShifted(later, k - 1);
    }
  }

  function Shifted(at: seq<nat>): (r: seq<nat>)
    ensures |r| == |at|
  {
    seq(|at|, i requires 0 <= i < |at| => at[i] + 1)
  }

  lemma InShifted(at: seq<nat>, k: nat)
    requires k in at
    ensures k + 1 in Shifted(at)
  {
    var i :| 0 <= i < |at| && at[i] == k;
    assert Shifted(at)[i] == k + 1;
  }

  lemma FirstText(items: seq<Json>, texts: seq<string>, later: seq<nat>) returns (at: seq<nat>)
    requires items != [] && items[0].Str? && |later| == |texts|
    requires forall i | 0 <= i < |later| :: 0 < later[i] < |items| && items[later[i]] == Str(texts[i])
    requires forall i, j | 0 <= i < j < |later| :: later[i] < later[j]
    requires forall k | 0 < k < |items| :: items[k].Str? ==> k in later
    ensures TextsAt([items[0].text] + texts, items, at)
  {
    at := [0] + later;
    forall k | 0 <= k < |items| && items[k].Str? ensures k in at {
      if k > 0 {
        assert k in later;
      }
    }
  }

  lemma DetailsAreDescribed(id: string, entry: Json, apps: McpApps)
    ensures DescribedBy(McpServer(id, EntryDetails(id, entry), apps), id, entry)
  {
    var tags := Get(entry, "tags");
    if tags.Some? && tags.value.Arr? {
      var at := OnlyTextsAreTexts(tags.value.items);
    }
  }

  // ---------- one application ----------

  function Lookup<T>(table: map<string, T>, id: string): Option<T> {
    if id in table then Some(table[id]) else None
  }

  /** What one application makes of one id: a known server keeps its details. */
  function MergedEntry(known: Option<McpServer>, app: AppType, id: string, entry: Json): McpServer {
    match known
    case Some(server) => server.(apps := server.apps.SetEnabledFor(app, EntryEnabled(entry)))
    case None => McpServer(id, EntryDetails(id, entry), NO_APPS.SetEnabledFor(app, EntryEnabled(entry)))
  }

  /** The table after one application, whatever order its entries were visited in. */
  function Merged(unified: Unified, app: AppType, servers: Servers): Unified {
    map id | id in unified.Keys + servers.Keys ::
      if id in servers then MergedEntry(Lookup(unified, id), app, id, servers[id]) else unified[id]
  }

  /** The inner loop, over the entries in an arbitrary order. */
  method MergeApp(before: Unified, app: AppType, servers: Servers) returns (unified: Unified)
    ensures unified == Merged(before, app, servers)
    ensures forall id | id in servers ::
              id in unified && (unified[id].apps.IsEnabledFor(app) <==> SupportsMcp(app) && !SaysDisabled(servers[id]))
    ensures forall id | id in unified :: id in before || id in servers
    ensures forall id | id in before && id !in servers :: id in unified && unified[id] == before[id]
  {
    unified := before;
    var remaining := servers.Keys;
    while remaining != {}
      invariant remaining <= servers.Keys
      invariant unified == Merged(before, app, servers - remaining)
      decreases remaining
    {
      var id :| id in remaining;
      var entry := servers[id];
      OneMoreEntry(before, app, servers - remaining, id, entry);
      if id in unified {
        unified := unified[id := unified[id].(apps := unified[id].apps.SetEnabledFor(app, EntryEnabled(entry)))];
      } else {
        var apps := NO_APPS.SetEnabledFor(app, EntryEnabled(entry));
        unified := unified[id := McpServer(id, EntryDetails(id, entry), apps)];
      }
      KeepOneMore(servers, remaining, id);
      remaining := remaining - {id};
    }
    assert servers - {} == servers;
    MergedByEntry(before, app, servers);
  }

  lemma MergedByEntry(before: Unified, app: AppType, servers: Servers)
    ensures var unified := Merged(before, app, servers);
            && (forall id | id in servers ::
                 && id in unified
                 && (unified[id].apps.IsEnabledFor(app) <==> SupportsMcp(app) && !SaysDisabled(servers[id])))
            && (forall id | id in unified :: id in before || id in servers)
            && (forall id | id in before && id !in servers :: id in unified && unified[id] == before[id])
  {
  }

  lemma KeepOneMore<T>(table: map<string, T>, removed: set<string>, id: string)
    requires id in removed && id in table
    ensures table - (removed - {id}) == (table - removed)[id := table[id]]
  {
  }

  lemma OneMoreEntry(before: Unified, app: AppType, servers: Servers, id: string, entry: Json)
    requires id !in servers
    ensures var unified := Merged(before, app, servers);
            && Lookup(unified, id) == Lookup(before, id)
            && Merged(before, app, servers[id := entry]) ==
               unified[id := MergedEntry(Lookup(unified, id), app, id, entry)]
  {
  }

  // ---------- all applications ----------

  /** The per-application tables the migration reads. */
  datatype Legacy = Legacy(claude: Servers, codex: Servers, gemini: Servers, opencode: Servers) {
    function Of(app: AppType): Servers {
      match app
      case Claude => claude
      case Codex => codex
      case Gemini => gemini
      case OpenCode => opencode
      case _ => map[]
    }
  }

  const MIGRATED := [Claude, Codex, Gemini, OpenCode]

  function MergedAll(legacy: Legacy, apps: seq<AppType>): Unified {
    if apps == [] then map[] else
      var last := apps[|apps| - 1];
      Merged(MergedAll(legacy, apps[..|apps| - 1]), last, legacy.Of(last))
  }

  predicate EnabledIn(servers: Servers, id: string) {
    id in servers && EntryEnabled(servers[id])
  }

  /** The entry of the first application that knows the id. */
  function FirstEntry(legacy: Legacy, id: string): Option<Json> {
    if id in legacy.claude then Some(legacy.claude[id])
    else if id in legacy.codex then Some(legacy.codex[id])
    else if id in legacy.gemini then Some(legacy.gemini[id])
    else if id in legacy.opencode then Some(legacy.opencode[id])
    else None
  }

  /** What the migrated table must say about one id. */
  function ServerOf(legacy: Legacy, id: string, entry: Json): McpServer {
    McpServer(
      id,
      EntryDetails(id, entry),
      McpApps(
        EnabledIn(legacy.claude, id),
        EnabledIn(legacy.codex, id),
        EnabledIn(legacy.gemini, id),
        EnabledIn(legacy.opencode, id),
        false))
  }

  /** `Merged` seen at one id. */
  function MergedAt(known: Option<McpServer>, app: AppType, id: string, entry: Option<Json>): Option<McpServer> {
    if entry.Some? then Some(MergedEntry(known, app, id, entry.value)) else known
  }

  /** The table of the first `k` applications seen at one id. */
  function PrefixAt(legacy: Legacy, apps: seq<AppType>, k: nat, id: string): Option<McpServer>
    requires k <= |apps|
  {
    if k == 0 then None
    else MergedAt(PrefixAt(legacy, apps, k - 1, id), apps[k - 1], id, Lookup(legacy.Of(apps[k - 1]), id))
  }

  lemma {:induction false} MergedAllAt(legacy: Legacy, apps: seq<AppType>, k: nat, id: string)
    requires k <= |apps|
    ensures Lookup(MergedAll(legacy, apps[..k]), id) == PrefixAt(legacy, apps, k, id)
  {
    if k > 0 {
      MergedAllAt(legacy, apps, k - 1, id);
      assert apps[..k][..k - 1] == apps[..k - 1];
    }
  }

  lemma FourSteps(legacy: Legacy, id: string)
    ensures var claude := MergedAt(None, Claude, id, Lookup(legacy.claude, id));
            var codex := MergedAt(claude, Codex, id, Lookup(legacy.codex, id));
            var gemini := MergedAt(codex, Gemini, id, Lookup(legacy.gemini, id));
            MergedAt(gemini, OpenCode, id, Lookup(legacy.opencode, id)) ==
            match FirstEntry(legacy, id)
            case None => None
            case Some(entry) => Some(ServerOf(legacy, id, entry))
  {
  }

  lemma FourApps(legacy: Legacy, apps: seq<AppType>, id: string)
    requires apps == MIGRATED
    ensures PrefixAt(legacy, apps, 4, id) ==
            match FirstEntry(legacy, id)
            case None => None
            case Some(entry) => Some(ServerOf(legacy, id, entry))
  {
    assert PrefixAt(legacy, apps, 0, id) == None;
    var claude := PrefixAt(legacy, apps, 1, id);
    var codex := PrefixAt(legacy, apps, 2, id);
    var gemini := PrefixAt(legacy, apps, 3, id);
    assert claude == MergedAt(None, Claude, id, Lookup(legacy.claude, id));
    assert codex == MergedAt(claude, Codex, id, Lookup(legacy.codex, id));
    assert gemini == MergedAt(codex, Gemini, id, Lookup(legacy.gemini, id));
    FourSteps(legacy, id);
  }

  lemma MigratedEntry(legacy: Legacy, id: string)
    ensures Lookup(MergedAll(legacy, MIGRATED), id) ==
            match FirstEntry(legacy, id)
            case None => None
            case Some(entry) => Some(ServerOf(legacy, id, entry))
  {
    MergedAllAt(legacy, MIGRATED, 4, id);
    assert MIGRATED[..4] == MIGRATED;
    FourApps(legacy, MIGRATED, id);
  }

  /** The application does not know the id or says that it is disabled. */
  predicate IsOff(servers: Servers, id: string) {
    id !in servers || SaysDisabled(servers[id])
  }

  /** The server says what the first application that knows the id says. */
  ghost predicate DescribedByFirst(server: McpServer, legacy: Legacy, id: string) {
    && (id in legacy.claude ==> DescribedBy(server, id, legacy.claude[id]))
    && (id !in legacy.claude && id in legacy.codex ==> DescribedBy(server, id, legacy.codex[id]))
    && (id !in legacy.claude && id !in legacy.codex && id in legacy.gemini ==>
         DescribedBy(server, id, legacy.gemini[id]))
    && (id !in legacy.claude && id !in legacy.codex && id !in legacy.gemini && id in legacy.opencode ==>
         DescribedBy(server, id, legacy.opencode[id]))
  }

  /** It is on for exactly the applications that know it and do not say that it is disabled. */
  predicate FlagsAreOf(apps: McpApps, legacy: Legacy, id: string) {
    && apps.claude == !IsOff(legacy.claude, id) && apps.codex == !IsOff(legacy.codex, id)
    && apps.gemini == !IsOff(legacy.gemini, id) && apps.opencode == !IsOff(legacy.opencode, id)
    && !apps.hermes
  }

  /** The table holds exactly the ids of the four tables, each with its server. */
  ghost predicate IsMigrationOf(unified: Unified, legacy: Legacy) {
    && unified.Keys == legacy.claude.Keys + legacy.codex.Keys + legacy.gemini.Keys + legacy.opencode.Keys
    && forall id | id in unified ::
         DescribedByFirst(unified[id], legacy, id) && FlagsAreOf(unified[id].apps, legacy, id)
  }

  lemma ServerOfIsServer(legacy: Legacy, id: string, entry: Json)
    requires FirstEntry(legacy, id) == Some(entry)
    ensures DescribedByFirst(ServerOf(legacy, id, entry), legacy, id)
  {
    DetailsAreDescribed(id, entry, ServerOf(legacy, id, entry).apps);
  }

  lemma ServerOfHasFlags(legacy: Legacy, id: string, entry: Json)
    ensures FlagsAreOf(ServerOf(legacy, id, entry).apps, legacy, id)
  {
  }

  /** What the merges of the four tables, one after the other, come to. */
  lemma MigrationIsTheUnion(legacy: Legacy)
    ensures IsMigrationOf(MergedAll(legacy, MIGRATED), legacy)
  {
    var unified := MergedAll(legacy, MIGRATED);
    MigratedIds(legacy, unified);
    forall id | id in unified
      ensures DescribedByFirst(unified[id], legacy, id) && FlagsAreOf(unified[id].apps, legacy, id)
    {
      MigratedEntry(legacy, id);
      ServerOfHasFlags(legacy, id, FirstEntry(legacy, id).value);
      ServerOfIsServer(legacy, id, FirstEntry(legacy, id).value);
    }
  }

  lemma MigratedIds(legacy: Legacy, unified: Unified)
    requires unified == MergedAll(legacy, MIGRATED)
    ensures unified.Keys == legacy.claude.Keys + legacy.codex.Keys + legacy.gemini.Keys + legacy.opencode.Keys
  {
    forall id: string ensures id in unified <==> FirstEntry(legacy, id).Some? {
      MigratedEntry(legacy, id);
    }
  }

  /** No table and no flag is lost: every legacy entry can be read off the migrated table. */
  lemma EveryEntryIsKept(legacy: Legacy, app: AppType, id: string)
    requires app in MIGRATED
    ensures var unified := MergedAll(legacy, MIGRATED);
            && (id in legacy.Of(app) ==> id in unified && unified[id].id == id)
            && (id in unified ==>
                 (!unified[id].apps.IsEnabledFor(app) <==>
                   id !in legacy.Of(app) || SaysDisabled(legacy.Of(app)[id])))
            && (id in unified ==> !unified[id].apps.hermes)
  {
    MigrationIsTheUnion(legacy);
  }

  class McpRoot {
    var servers: Option<Unified>
    var claude: Servers
    var claudeDesktop: Servers
    var codex: Servers
    var gemini: Servers
    var opencode: Servers
    var openclaw: Servers
    var hermes: Servers

    constructor (legacy: Legacy)
      ensures servers == None && Tables() == legacy
      ensures claudeDesktop == openclaw == hermes == map[]
    {
      servers := None;
      claude, codex, gemini, opencode := legacy.claude, legacy.codex, legacy.gemini, legacy.opencode;
      claudeDesktop, openclaw, hermes := map[], map[], map[];
    }

    function Tables(): Legacy
      reads this
    {
      Legacy(claude, codex, gemini, opencode)
    }

    /**
     Migrates once. A unified table, even an empty one, means there is nothing to do. The
     table of OpenCode is read but, unlike the other three, not cleared.
     */
    method MigrateMcpToUnified() returns (migrated: bool)
      modifies `servers, `claude, `codex, `gemini
      ensures migrated <==> old(servers).None?
      ensures if migrated then servers.Some? && IsMigrationOf(servers.value, old(Tables())) else servers == old(servers)
      ensures Tables() == if migrated then Legacy(map[], map[], map[], old(opencode)) else old(Tables())
    {
      if servers.Some? {
        return false;
      }
      var unified: Unified := map[];
      for i := 0 to |MIGRATED|
        invariant unchanged(this)
        invariant unified == MergedAll(Tables(), MIGRATED[..i])
      {
        var app := MIGRATED[i];
        assert MIGRATED[..i + 1][..i] == MIGRATED[..i];
        unified := MergeApp(unified, app, Tables().Of(app));
      }
      assert MIGRATED[..|MIGRATED|] == MIGRATED;
      MigrationIsTheUnion(Tables());
      servers := Some(unified);
      claude, codex, gemini := map[], map[], map[];
      return true;
    }
  }
}
