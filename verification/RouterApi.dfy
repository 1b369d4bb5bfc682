/**
 The settings side of the router: providers, model routes, mode and the gap marker of the
 Codex pointer. The class runs each call against its tables; the lemmas below are about
 whole sequences of calls.
 */
module RouterApi {
  import opened Text
  import opened SemVer

  const DEFAULT_ROUTER_PORT := 8788
  const PORT_KEY := "router.port"
  const MODE_KEY := "router.mode"
  const POINTER_GAP_KEY := "router.pointer_gap_since"
  const MANUAL := "manual:"

  datatype WireApi = Responses | ChatCompletions | Messages

  datatype Provider = Provider(wireApi: WireApi, enabled: bool)

  datatype ProviderInput = ProviderInput(
    id: string, displayName: string, baseUrl: string, wireApi: string, authKind: string, enabled: bool)

  /** What the URL library makes of a base URL that it can parse. */
  datatype Endpoint = Endpoint(
    scheme: string, host: Option<string>, username: string, password: Option<string>,
    query: Option<string>, fragment: Option<string>)

  datatype Route = Route(logical: string, upstream: string)

  /** One row of `router_model_map`; rows are kept in insertion order. */
  datatype Row = Row(provider: string, route: Route)

  datatype State = State(providers: map<string, Provider>, rows: seq<Row>, settings: map<string, string>)

  datatype Pointer = OursAndCurrent | NotOurs | Unreadable

  /**
   `endpoint` is the parsed base URL of the input, if it parses. `works` says whether the
   write of the marker, or of the pointer, succeeds.
   */
  datatype Call =
    | UpsertProvider(input: ProviderInput, endpoint: Option<Endpoint>)
    | DeleteProvider(id: string)
    | SetModelRoutes(provider: string, routes: seq<Route>)
    | SetMode(mode: string)
    | EnablePointer(listening: Option<nat>, works: bool, markerWorks: bool)
    | CheckPointer(pointer: Pointer, now: nat, works: bool)

  // ---------- providers ----------

  function WireApiFromInput(raw: string): Option<WireApi> {
    if raw == "responses" then Some(Responses)
    else if raw == "chat_completions" then Some(ChatCompletions)
    else if raw == "messages" then Some(Messages)
    else None
  }

  predicate IsAuthKind(raw: string) {
    raw == "chatgpt_oauth" || raw == "bearer_key" || raw == "none"
  }

  /** HTTP or HTTPS with a host, and no credentials, query or fragment. */
  predicate IsPlainEndpoint(e: Endpoint) {
    && (e.scheme == "http" || e.scheme == "https") && e.host.Some?
    && e.username == "" && e.password.None? && e.query.None? && e.fragment.None?
  }

  predicate AcceptsProvider(input: ProviderInput, endpoint: Option<Endpoint>) {
    && endpoint.Some? && IsPlainEndpoint(endpoint.value) && !IsBlankText(input.id) && !IsBlankText(input.displayName)
    && WireApiFromInput(input.wireApi).Some? && IsAuthKind(input.authKind)
  }

  // ---------- routes ----------

  predicate NamesAreUnique(routes: seq<Route>) {
    forall i, j | 0 <= i < j < |routes| :: routes[i].logical != routes[j].logical
  }

  predicate IsGiven(route: Route) {
    !IsBlankText(route.logical) && !IsBlankText(route.upstream)
  }

  predicate NamesAreGiven(routes: seq<Route>) {
    forall i | 0 <= i < |routes| :: IsGiven(routes[i])
  }

  function RowsOf(provider: string, routes: seq<Route>): (r: seq<Row>)
    ensures |r| == |routes|
  {
    seq(|routes|, i requires 0 <= i < |routes| => Row(provider, routes[i]))
  }

  /** `DELETE … WHERE provider_id = ?`. */
  function Without(rows: seq<Row>, provider: string): seq<Row> {
    if rows == [] then []
    else (if rows[0].provider == provider then [] else [rows[0]]) + Without(rows[1..], provider)
  }

  /** `SELECT … WHERE provider_id = ?`, in storage order. */
  function RoutesOf(rows: seq<Row>, provider: string): seq<Route> {
    if rows == [] then []
    else (if rows[0].provider == provider then [rows[0].route] else []) + RoutesOf(rows[1..], provider)
  }

  function InsertByName(sorted: seq<Route>, x: Route): seq<Route> {
    if sorted == [] || CompareText(x.logical, sorted[0].logical) == Less then [x] + sorted
    else [sorted[0]] + InsertByName(sorted[1..], x)
  }

  /** `ORDER BY logical_model`, which compares UTF-8 bytes. */
  function ByName(routes: seq<Route>): seq<Route> {
    if routes == [] then [] else InsertByName(ByName(routes[1..]), routes[0])
  }

  function ListModelRoutes(rows: seq<Row>, provider: string): seq<Route> {
    ByName(RoutesOf(rows, provider))
  }

  // ---------- mode ----------

  predicate NamesManualProvider(mode: string) {
    StartsWith(mode, MANUAL) && |mode| > |MANUAL|
  }

  /** A stored value that is neither form reads as automatic. */
  function GetMode(settings: map<string, string>): (mode: string)
    ensures mode == "auto" || NamesManualProvider(mode)
  {
    if MODE_KEY in settings && NamesManualProvider(settings[MODE_KEY]) then settings[MODE_KEY] else "auto"
  }

  /** `manual:` and the id of a provider behind it. */
  lemma ManualModes(mode: string)
    ensures NamesManualProvider(mode) <==> exists id :: id != "" && mode == MANUAL + id
    ensures NamesManualProvider(mode) ==> mode == MANUAL + mode[|MANUAL|..]
    ensures forall id | id != "" && mode == MANUAL + id :: id == mode[|MANUAL|..]
  {
    if NamesManualProvider(mode) {
      assert mode == MANUAL + mode[|MANUAL|..];
    }
    forall id | id != "" && mode == MANUAL + id ensures NamesManualProvider(mode) && id == mode[|MANUAL|..] {
      assert mode[..|MANUAL|] == MANUAL;
    }
  }

  /** A stored manual mode is returned as it is, and anything else as automatic. */
  lemma ModeIsReadExactly(settings: map<string, string>)
    ensures forall id | id != "" ::
              GetMode(settings) == MANUAL + id <==> MODE_KEY in settings && settings[MODE_KEY] == MANUAL + id
    ensures (forall id | id != "" :: !(MODE_KEY in settings && settings[MODE_KEY] == MANUAL + id)) ==>
              GetMode(settings) == "auto"
  {
    if MODE_KEY in settings {
      ManualModes(settings[MODE_KEY]);
    }
    forall id: string ensures "auto" != MANUAL + id {
      assert "auto"[0] == 'a' && (MANUAL + id)[0] == 'm';
    }
  }

  predicate AcceptsMode(providers: map<string, Provider>, mode: string) {
    mode == "auto" || (NamesManualProvider(mode) && mode[|MANUAL|..] in providers)
  }

  // ---------- pointer ----------

  /** An unreadable or unparseable port falls back to the default. */
  function ReadRouterPort(settings: map<string, string>): nat {
    if PORT_KEY !in settings then DEFAULT_ROUTER_PORT else
      var port := ParseU64(Trim(settings[PORT_KEY]));
      if port.Some? && port.value < 65536 then port.value else DEFAULT_ROUTER_PORT
  }

  predicate PointerEnableGuard(configured: nat, listening: Option<nat>) {
    listening == Some(configured)
  }

  /** Some enabled provider that speaks Responses has a route. */
  predicate IsReady(s: State) {
    exists i | 0 <= i < |s.rows| ::
      var p := s.rows[i].provider;
      p in s.providers && s.providers[p].enabled && s.providers[p].wireApi.Responses?
  }

  function ApplyGapMarker(settings: map<string, string>, pointer: Pointer, now: nat): map<string, string> {
    if pointer.OursAndCurrent? then settings - {POINTER_GAP_KEY}
    else if POINTER_GAP_KEY !in settings then settings[POINTER_GAP_KEY := Decimal(now)]
    else settings
  }

  // ---------- one call ----------

  predicate Accepts(s: State, call: Call) {
    match call
    case UpsertProvider(input, endpoint) => AcceptsProvider(input, endpoint)
    case DeleteProvider(_) => true
    case SetModelRoutes(provider, routes) =>
      provider in s.providers && NamesAreGiven(routes) && NamesAreUnique(routes)
    case SetMode(mode) => AcceptsMode(s.providers, mode)
    case EnablePointer(listening, works, _) =>
      PointerEnableGuard(ReadRouterPort(s.settings), listening) && IsReady(s) && works
    case CheckPointer(pointer, _, works) =>
      works || (!pointer.OursAndCurrent? && POINTER_GAP_KEY in s.settings)
  }

  function After(s: State, call: Call): State {
    if !Accepts(s, call) then s else
      match call
      case UpsertProvider(input, _) =>
        s.(providers := s.providers[input.id := Provider(WireApiFromInput(input.wireApi).value, input.enabled)])
      case DeleteProvider(id) => s.(providers := s.providers - {id}, rows := Without(s.rows, id))
      case SetModelRoutes(provider, routes) =>
        s.(rows := Without(s.rows, provider) + RowsOf(provider, routes))
      case SetMode(mode) => s.(settings := s.settings[MODE_KEY := mode])
      case EnablePointer(_, _, markerWorks) =>
        if markerWorks then s.(settings := s.settings - {POINTER_GAP_KEY}) else s
      case CheckPointer(pointer, now, _) => s.(settings := ApplyGapMarker(s.settings, pointer, now))
  }

  /** The names are collected in a set, and the first bad one ends the loop. */
  method CheckRoutes(routes: seq<Route>) returns (ok: bool)
    ensures ok <==> NamesAreGiven(routes) && NamesAreUnique(routes)
  {
    var names: set<string> := {};
    for i := 0 to |routes|
      invariant forall k | 0 <= k < i :: IsGiven(routes[k])
      invariant forall j, k | 0 <= j < k < i :: routes[j].logical != routes[k].logical
      invariant forall k | 0 <= k < i :: routes[k].logical in names
      invariant forall name | name in names :: exists k | 0 <= k < i :: routes[k].logical == name
    {
      var route := routes[i];
      if !IsGiven(route) {
        return false;
      }
      if route.logical in names {
        return false;
      }
      assert forall k | 0 <= k < i :: routes[k].logical != route.logical;
      names := names + {route.logical};
      assert routes[i].logical in names;
    }
    return true;
  }

  class Api {
    var providers: map<string, Provider>
    var rows: seq<Row>
    var settings: map<string, string>

    constructor (settings: map<string, string>)
      ensures Current() == State(map[], [], settings)
    {
      this.providers, this.rows, this.settings := map[], [], settings;
    }

    function Current(): State
      reads this
    {
      State(providers, rows, settings)
    }

    method Upsert(input: ProviderInput, endpoint: Option<Endpoint>) returns (ok: bool)
      modifies `providers
      ensures ok <==>
              && endpoint.Some? && (endpoint.value.scheme == "http" || endpoint.value.scheme == "https")
              && endpoint.value.host.Some? && endpoint.value.username == "" && endpoint.value.password.None?
              && endpoint.value.query.None? && endpoint.value.fragment.None?
              && !IsBlankText(input.id) && !IsBlankText(input.displayName)
              && (input.wireApi == "responses" || input.wireApi == "chat_completions" || input.wireApi == "messages")
              && (input.authKind == "chatgpt_oauth" || input.authKind == "bearer_key" || input.authKind == "none")
      ensures ok == Accepts(old(Current()), UpsertProvider(input, endpoint))
      ensures Current() == After(old(Current()), UpsertProvider(input, endpoint))
    {
      if endpoint.None? {
        return false;
      }
      var url := endpoint.value;
      if IsBlankText(input.id) || IsBlankText(input.displayName)
         || (url.scheme != "http" && url.scheme != "https") || url.host.None?
         || url.username != "" || url.password.Some? || url.query.Some? || url.fragment.Some?
      {
        return false;
      }
      var wireApi := WireApiFromInput(input.wireApi);
      if wireApi.None? || !IsAuthKind(input.authKind) {
        return false;
      }
      providers := providers[input.id := Provider(wireApi.value, input.enabled)];
      return true;
    }

    /** The foreign key of the routes cascades; the mode is left as it is. */
    method Delete(id: string)
      modifies `providers, `rows
      ensures Current() == After(old(Current()), DeleteProvider(id))
    {
      providers := providers - {id};
      rows := Without(rows, id);
    }

    /** Validates the whole list before the first row is touched. */
    method ReplaceRoutes(provider: string, routes: seq<Route>) returns (ok: bool)
      modifies `rows
      ensures ok == Accepts(old(Current()), SetModelRoutes(provider, routes))
      ensures Current() == After(old(Current()), SetModelRoutes(provider, routes))
    {
      if provider !in providers {
        return false;
      }
      ok := CheckRoutes(routes);
      if !ok {
        return false;
      }
      rows := Without(rows, provider);
      ghost var kept := rows;
      for i := 0 to |routes|
        invariant rows == kept + RowsOf(provider, routes)[..i]
      {
        rows := rows + [Row(provider, routes[i])];
      }
      assert RowsOf(provider, routes)[..|routes|] == RowsOf(provider, routes);
      return true;
    }

    method StoreMode(mode: string) returns (ok: bool)
      modifies `settings
      ensures ok <==> mode == "auto" || exists id :: id != "" && id in providers && mode == MANUAL + id
      ensures ok == Accepts(old(Current()), SetMode(mode))
      ensures Current() == After(old(Current()), SetMode(mode))
    {
      ManualModes(mode);
      if mode == "auto" {
        settings := settings[MODE_KEY := "auto"];
        return true;
      }
      if !NamesManualProvider(mode) || mode[|MANUAL|..] !in providers {
        return false;
      }
      settings := settings[MODE_KEY := mode];
      return true;
    }

    /** The pointer is written first; a marker that cannot be cleared is only logged. */
    method Enable(listening: Option<nat>, works: bool, markerWorks: bool) returns (ok: bool)
      modifies `settings
      ensures ok == Accepts(old(Current()), EnablePointer(listening, works, markerWorks))
      ensures Current() == After(old(Current()), EnablePointer(listening, works, markerWorks))
    {
      var port := ReadRouterPort(settings);
      if !PointerEnableGuard(port, listening) {
        return false;
      }
      if !IsReady(Current()) {
        return false;
      }
      if !works {
        return false;
      }
      if markerWorks {
        settings := settings - {POINTER_GAP_KEY};
      }
      return true;
    }

    /** At startup: the earliest gap is kept, and nothing is written when one is on record. */
    method ApplyPointerGapMarker(pointer: Pointer, now: nat, works: bool) returns (ok: bool)
      modifies `settings
      ensures ok == Accepts(old(Current()), CheckPointer(pointer, now, works))
      ensures Current() == After(old(Current()), CheckPointer(pointer, now, works))
    {
      if pointer.OursAndCurrent? {
        if works {
          settings := settings - {POINTER_GAP_KEY};
        }
        return works;
      }
      if POINTER_GAP_KEY in settings {
        return true;
      }
      if works {
        settings := settings[POINTER_GAP_KEY := Decimal(now)];
      }
      return works;
    }
  }

  // ---------- sequences of calls ----------

  function Run(s: State, calls: seq<Call>): State {
    if calls == [] then s else After(Run(s, calls[..|calls| - 1]), calls[|calls| - 1])
  }

  // ---------- routes over a run ----------

  lemma {:induction false} KeepOthers(rows: seq<Row>, provider: string, other: string)
    ensures RoutesOf(Without(rows, provider), other) == if other == provider then [] else RoutesOf(rows, other)
  {
    if rows != [] {
      KeepOthers(rows[1..], provider, other);
      var head := if rows[0].provider == provider then [] else [rows[0]];
      RoutesJoin(head, Without(rows[1..], provider), other);
    }
  }

  lemma {:induction false} RoutesJoin(a: seq<Row>, b: seq<Row>, provider: string)
    ensures RoutesOf(a + b, provider) == RoutesOf(a, provider) + RoutesOf(b, provider)
  {
    if a == [] {
      NothingBefore(b);
      NothingBefore(RoutesOf(b, provider));
    } else {
      RoutesJoin(a[1..], b, provider);
      var head := if a[0].provider == provider then [a[0].route] else [];
      ConcatAssociates(head, RoutesOf(a[1..], provider), RoutesOf(b, provider));
      DropFirst(a, b);
    }
  }

  lemma DropFirst(a: seq<Row>, b: seq<Row>)
    requires a != []
    ensures (a + b)[0] == a[0] && (a + b)[1..] == a[1..] + b
  {
  }

  lemma {:induction false} RoutesOfRows(provider: string, routes: seq<Route>, other: string)
    ensures RoutesOf(RowsOf(provider, routes), other) == if other == provider then routes else []
  {
    if routes != [] {
      RoutesOfRows(provider, routes[1..], other);
      assert RowsOf(provider, routes)[1..] == RowsOf(provider, routes[1..]);
    }
  }

  /**
   The routes given to the last accepted call for a provider, none if it was deleted since,
   or those it started with.
   */
  function LastAccepted(s: State, calls: seq<Call>, provider: string): seq<Route> {
    if calls == [] then RoutesOf(s.rows, provider) else
      var before, call := calls[..|calls| - 1], calls[|calls| - 1];
      if call.SetModelRoutes? && call.provider == provider && Accepts(Run(s, before), call) then call.routes
      else if call == DeleteProvider(provider) then []
      else LastAccepted(s, before, provider)
  }

  /** What one call does to the stored routes of a provider. */
  lemma RoutesAfter(t: State, call: Call, provider: string)
    ensures RoutesOf(After(t, call).rows, provider) ==
            if call.SetModelRoutes? && call.provider == provider && Accepts(t, call) then call.routes
            else if call == DeleteProvider(provider) then []
            else RoutesOf(t.rows, provider)
  {
    if call.DeleteProvider? {
      KeepOthers(t.rows, call.id, provider);
    } else if call.SetModelRoutes? && Accepts(t, call) {
      var added := RowsOf(call.provider, call.routes);
      RoutesJoin(Without(t.rows, call.provider), added, provider);
      KeepOthers(t.rows, call.provider, provider);
      RoutesOfRows(call.provider, call.routes, provider);
      if call.provider == provider {
        NothingBefore(call.routes);
      } else {
        NothingAfter(RoutesOf(t.rows, provider));
      }
    }
  }

  lemma {:induction false} StoredIsLastAccepted(s: State, calls: seq<Call>, provider: string)
    ensures RoutesOf(Run(s, calls).rows, provider) == LastAccepted(s, calls, provider)
  {
    if calls != [] {
      var before, call := calls[..|calls| - 1], calls[|calls| - 1];
      StoredIsLastAccepted(s, before, provider);
      RoutesAfter(Run(s, before), call, provider);
    }
  }

  predicate SortedByName(routes: seq<Route>) {
    forall i, j | 0 <= i < j < |routes| :: CompareText(routes[i].logical, routes[j].logical) == Less
  }

  lemma {:induction false} InsertAdds(sorted: seq<Route>, x: Route)
    ensures multiset(InsertByName(sorted, x)) == multiset(sorted) + multiset{x}
  {
    if sorted != [] {
      InsertAdds(sorted[1..], x);
      assert sorted == [sorted[0]] + sorted[1..];
    }
  }

  lemma MemberOfInserted(sorted: seq<Route>, x: Route, y: Route)
    requires y in InsertByName(sorted, x)
    ensures y == x || y in sorted
  {
    InsertAdds(sorted, x);
    assert y in multiset(InsertByName(sorted, x));
  }

  lemma FirstIsLess(sorted: seq<Route>, x: Route)
    requires SortedByName(sorted) && sorted != [] && CompareText(x.logical, sorted[0].logical) == Less
    ensures SortedByName([x] + sorted)
  {
    forall j | 0 <= j < |sorted| ensures CompareText(x.logical, sorted[j].logical) == Less {
      TextIsPreorder(x.logical, sorted[0].logical, sorted[j].logical);
    }
  }

  lemma {:induction false} InsertSorts(sorted: seq<Route>, x: Route)
    requires SortedByName(sorted) && forall i | 0 <= i < |sorted| :: sorted[i].logical != x.logical
    ensures SortedByName(InsertByName(sorted, x))
  {
    if sorted != [] {
      if CompareText(x.logical, sorted[0].logical) == Less {
        FirstIsLess(sorted, x);
      } else {
        var rest := InsertByName(sorted[1..], x);
        InsertSorts(sorted[1..], x);
        TextIsPreorder(x.logical, sorted[0].logical, x.logical);
        TextOrder(x.logical, sorted[0].logical);
        forall j | 0 <= j < |rest| ensures CompareText(sorted[0].logical, rest[j].logical) == Less {
          MemberOfInserted(sorted[1..], x, rest[j]);
        }
      }
    }
  }

  lemma {:induction false} ByNameKeeps(routes: seq<Route>)
    ensures multiset(ByName(routes)) == multiset(routes)
  {
    if routes != [] {
      ByNameKeeps(routes[1..]);
      InsertAdds(ByName(routes[1..]), routes[0]);
      assert routes == [routes[0]] + routes[1..];
    }
  }

  lemma MemberOfSorted(routes: seq<Route>, y: Route)
    requires y in ByName(routes)
    ensures y in routes
  {
    ByNameKeeps(routes);
    assert y in multiset(ByName(routes));
  }

  lemma {:induction false} ByNameSorts(routes: seq<Route>)
    requires NamesAreUnique(routes)
    ensures SortedByName(ByName(routes))
  {
    if routes != [] {
      var others := routes[1..];
      ByNameSorts(others);
      forall i | 0 <= i < |ByName(others)| ensures ByName(others)[i].logical != routes[0].logical {
        MemberOfSorted(others, ByName(others)[i]);
      }
      InsertSorts(ByName(others), routes[0]);
    }
  }

  lemma {:induction false} AcceptedRoutesAreGood(s: State, calls: seq<Call>, provider: string)
    requires s.rows == []
    ensures NamesAreUnique(LastAccepted(s, calls, provider)) && NamesAreGiven(LastAccepted(s, calls, provider))
  {
    if calls != [] {
      AcceptedRoutesAreGood(s, calls[..|calls| - 1], provider);
    }
  }

  /**
   After any calls a provider's listed routes are the last accepted list and nothing else,
   or none after a deletion, strictly sorted by name, with no blank name.
   */
  lemma RoutesAreTheLastAccepted(s: State, calls: seq<Call>, provider: string)
    requires s.rows == []
    ensures var listed := ListModelRoutes(Run(s, calls).rows, provider);
            && multiset(listed) == multiset(LastAccepted(s, calls, provider))
            && SortedByName(listed)
            && NamesAreGiven(listed)
  {
    StoredIsLastAccepted(s, calls, provider);
    AcceptedRoutesAreGood(s, calls, provider);
    var accepted := LastAccepted(s, calls, provider);
    ByNameSorts(accepted);
    ByNameKeeps(accepted);
    var listed := ByName(accepted);
    forall i | 0 <= i < |listed| ensures IsGiven(listed[i]) {
      MemberOfSorted(accepted, listed[i]);
    }
  }

  // ---------- mode over a run ----------

  function LastMode(s: State, calls: seq<Call>): string {
    if calls == [] then GetMode(s.settings) else
      var before, call := calls[..|calls| - 1], calls[|calls| - 1];
      if call.SetMode? && Accepts(Run(s, before), call) then call.mode else LastMode(s, before)
  }

  /** `get_mode` returns exactly what the last accepted `set_mode` stored. */
  lemma {:induction false} ModeIsTheLastAccepted(s: State, calls: seq<Call>)
    ensures GetMode(Run(s, calls).settings) == LastMode(s, calls)
  {
    if calls != [] {
      ModeIsTheLastAccepted(s, calls[..|calls| - 1]);
      KeysDiffer();
    }
  }

  /** An accepted upsert of a provider. */
  predicate Adds(call: Call, id: string) {
    call.UpsertProvider? && AcceptsProvider(call.input, call.endpoint) && call.input.id == id
  }

  /** A call deletes the provider and no later one adds it again. */
  predicate IsDeleted(calls: seq<Call>, id: string) {
    exists j | 0 <= j < |calls| :: IsLastDeletion(calls, id, j)
  }

  predicate IsLastDeletion(calls: seq<Call>, id: string, j: nat) {
    j < |calls| && calls[j] == DeleteProvider(id) && forall k | j < k < |calls| :: !Adds(calls[k], id)
  }

  lemma DeletedOneMore(calls: seq<Call>, id: string)
    requires calls != []
    ensures var before, call := calls[..|calls| - 1], calls[|calls| - 1];
            IsDeleted(calls, id) <==> call == DeleteProvider(id) || (IsDeleted(before, id) && !Adds(call, id))
  {
    var last := |calls| - 1;
    forall j | 0 <= j < last
      ensures IsLastDeletion(calls, id, j) <==> IsLastDeletion(calls[..last], id, j) && !Adds(calls[last], id)
    {
    }
    assert IsLastDeletion(calls, id, last) <==> calls[last] == DeleteProvider(id);
  }

  predicate NamesKnownProvider(mode: string, providers: map<string, Provider>) {
    NamesManualProvider(mode) ==> mode[|MANUAL|..] in providers
  }

  /**
   The mode is checked when it is set and not when a provider is deleted: from a state whose
   mode is good it names a missing provider if and only if that provider has been deleted
   and not added again.
   */
  lemma {:induction false} ModeDanglesExactly(s: State, calls: seq<Call>)
    requires NamesKnownProvider(GetMode(s.settings), s.providers)
    ensures var t := Run(s, calls);
            var mode := GetMode(t.settings);
            !NamesKnownProvider(mode, t.providers)
            <==> NamesManualProvider(mode) && IsDeleted(calls, mode[|MANUAL|..])
  {
    var mode := GetMode(Run(s, calls).settings);
    if NamesManualProvider(mode) {
      DeletedIsMissing(s, calls, mode[|MANUAL|..]);
    }
    if calls != [] {
      var before, call := calls[..|calls| - 1], calls[|calls| - 1];
      ModeDanglesExactly(s, before);
      KeysDiffer();
      if NamesManualProvider(mode) {
        DeletedOneMore(calls, mode[|MANUAL|..]);
      }
    }
  }

  /** It can: the provider of the mode is deleted. */
  lemma AModeCanDangle(s: State, id: string) returns (calls: seq<Call>)
    requires id in s.providers && id != ""
    ensures Accepts(s, SetMode(MANUAL + id))
    ensures var t := Run(s, calls); GetMode(t.settings) == MANUAL + id && id !in t.providers
  {
    var first, second := SetMode(MANUAL + id), DeleteProvider(id);
    assert (MANUAL + id)[..|MANUAL|] == MANUAL && (MANUAL + id)[|MANUAL|..] == id;
    calls := [first, second];
    assert calls[..1] == [first] && [first][..0] == [];
    assert Run(s, [first]) == After(s, first);
    assert Run(s, calls) == After(After(s, first), second);
  }

  lemma {:induction false} DeletedIsMissing(s: State, calls: seq<Call>, id: string)
    ensures IsDeleted(calls, id) ==> id !in Run(s, calls).providers
  {
    if calls != [] {
      DeletedIsMissing(s, calls[..|calls| - 1], id);
      DeletedOneMore(calls, id);
    }
  }

  lemma KeysDiffer()
    ensures MODE_KEY != POINTER_GAP_KEY
  {
    assert MODE_KEY[7] == 'm' && POINTER_GAP_KEY[7] == 'p';
  }

  // ---------- the gap marker over a run ----------

  predicate SeesGap(call: Call) {
    call.CheckPointer? && call.works && !call.pointer.OursAndCurrent?
  }

  /** The pointer is seen to be ours, or made ours. */
  predicate ClosesGap(s: State, calls: seq<Call>, k: nat)
    requires k < |calls|
  {
    match calls[k]
    case CheckPointer(pointer, _, works) => works && pointer.OursAndCurrent?
    case EnablePointer(_, _, markerWorks) => markerWorks && Accepts(Run(s, calls[..k]), calls[k])
    case _ => false
  }

  /** Call i saw a gap that no later call closed. */
  predicate OpenSince(s: State, calls: seq<Call>, i: nat)
    requires i < |calls|
  {
    SeesGap(calls[i]) && forall k | i < k < |calls| :: !ClosesGap(s, calls, k)
  }

  function Marker(s: State): Option<string> {
    if POINTER_GAP_KEY in s.settings then Some(s.settings[POINTER_GAP_KEY]) else None
  }

  lemma SamePrefix(s: State, calls: seq<Call>, k: nat)
    requires k + 1 < |calls|
    ensures calls[..|calls| - 1][k] == calls[k]
    ensures ClosesGap(s, calls[..|calls| - 1], k) == ClosesGap(s, calls, k)
  {
    assert calls[..|calls| - 1][..k] == calls[..k];
  }

  lemma LastCallOnMarker(s: State, calls: seq<Call>)
    requires calls != []
    ensures var before, last := Run(s, calls[..|calls| - 1]), |calls| - 1;
            Marker(Run(s, calls)) ==
            if ClosesGap(s, calls, last) then None
            else if SeesGap(calls[last]) && Marker(before).None? then Some(Decimal(calls[last].now))
            else Marker(before)
  {
    KeysDiffer();
  }

  lemma OpenSinceOneMore(s: State, calls: seq<Call>, i: nat)
    requires i + 1 < |calls|
    ensures var last := |calls| - 1;
            OpenSince(s, calls, i) <==> OpenSince(s, calls[..last], i) && !ClosesGap(s, calls, last)
  {
    var last := |calls| - 1;
    forall k | 0 <= k < last ensures ClosesGap(s, calls[..last], k) == ClosesGap(s, calls, k) {
      SamePrefix(s, calls, k);
    }
  }

  /** The first of the open gaps is at call i. */
  ghost predicate FirstOpen(s: State, calls: seq<Call>, i: nat) {
    && i < |calls| && OpenSince(s, calls, i)
    && forall j | 0 <= j < i :: !OpenSince(s, calls, j)
  }

  /**
   The marker is there if and only if some check saw a gap that has not been closed since,
   and then it holds the time of the first such check.
   */
  lemma {:induction false} MarkerIsFirstOpenGap(s: State, calls: seq<Call>)
    requires Marker(s) == None
    ensures Marker(Run(s, calls)).None? ==> forall i | 0 <= i < |calls| :: !OpenSince(s, calls, i)
    ensures Marker(Run(s, calls)).Some? ==>
              exists i: nat :: FirstOpen(s, calls, i) && Marker(Run(s, calls)) == Some(Decimal(calls[i].now))
  {
    if calls != [] {
      var last := |calls| - 1;
      var before := calls[..last];
      MarkerIsFirstOpenGap(s, before);
      LastCallOnMarker(s, calls);
      forall i | 0 <= i < last
        ensures OpenSince(s, calls, i) <==> OpenSince(s, before, i) && !ClosesGap(s, calls, last)
      {
        OpenSinceOneMore(s, calls, i);
      }
      var mark, earlier := Marker(Run(s, calls)), Marker(Run(s, before));
      if mark.Some? {
        if earlier.Some? {
          var i: nat :| FirstOpen(s, before, i) && earlier == Some(Decimal(before[i].now));
          assert FirstOpen(s, calls, i);
        } else {
          assert FirstOpen(s, calls, last);
        }
      }
    }
  }

  // ---------- providers over a run ----------

  /** The call is the last accepted upsert of the provider, and no deletion follows it. */
  predicate IsLastAdd(calls: seq<Call>, id: string, j: nat) {
    && j < |calls| && Adds(calls[j], id)
    && forall k | j < k < |calls| :: !Adds(calls[k], id) && calls[k] != DeleteProvider(id)
  }

  predicate IsWireText(api: WireApi, text: string) {
    || (api == Responses && text == "responses")
    || (api == ChatCompletions && text == "chat_completions")
    || (api == Messages && text == "messages")
  }

  lemma LastAddOneMore(calls: seq<Call>, id: string, j: nat)
    requires j < |calls|
    ensures var last := |calls| - 1;
            IsLastAdd(calls, id, j) <==>
            if j == last then Adds(calls[last], id)
            else IsLastAdd(calls[..last], id, j) && !Adds(calls[last], id) && calls[last] != DeleteProvider(id)
  {
    var before := calls[..|calls| - 1];
    assert forall k | 0 <= k < |before| :: before[k] == calls[k];
  }

  lemma AddedProvider(s: State, call: Call, id: string)
    requires Adds(call, id)
    ensures var t := After(s, call);
            && id in t.providers && t.providers[id].enabled == call.input.enabled
            && IsWireText(t.providers[id].wireApi, call.input.wireApi)
  {
  }

  lemma OtherProvidersStay(s: State, call: Call, id: string)
    requires !Adds(call, id) && call != DeleteProvider(id)
    ensures (id in After(s, call).providers <==> id in s.providers)
    ensures id in s.providers ==> After(s, call).providers[id] == s.providers[id]
  {
  }

  /**
   Over any calls a provider is stored if and only if some accepted upsert of it has not been
   followed by its deletion, and it is stored as the last such upsert gave it.
   */
  lemma {:induction false} ProviderIsLastInput(s: State, calls: seq<Call>, id: string)
    requires s.providers == map[]
    ensures id in Run(s, calls).providers <==> exists j :: 0 <= j < |calls| && IsLastAdd(calls, id, j)
    ensures forall j | 0 <= j < |calls| && IsLastAdd(calls, id, j) ::
              && id in Run(s, calls).providers
              && Run(s, calls).providers[id].enabled == calls[j].input.enabled
              && IsWireText(Run(s, calls).providers[id].wireApi, calls[j].input.wireApi)
  {
    if calls != [] {
      var last := |calls| - 1;
      var before, call := calls[..last], calls[last];
      ProviderIsLastInput(s, before, id);
      forall j | 0 <= j < |calls|
        ensures IsLastAdd(calls, id, j) <==>
                if j == last then Adds(call, id)
                else IsLastAdd(before, id, j) && !Adds(call, id) && call != DeleteProvider(id)
      {
        LastAddOneMore(calls, id, j);
      }
      if Adds(call, id) {
        AddedProvider(Run(s, before), call, id);
        assert IsLastAdd(calls, id, last);
      } else if call != DeleteProvider(id) {
        OtherProvidersStay(Run(s, before), call, id);
        LastAddStays(before, calls, id);
      }
    }
  }

  lemma LastAddStays(before: seq<Call>, calls: seq<Call>, id: string)
    requires |before| < |calls|
    requires forall j | 0 <= j < |calls| :: IsLastAdd(calls, id, j) <==> j < |before| && IsLastAdd(before, id, j)
    ensures (exists j :: 0 <= j < |calls| && IsLastAdd(calls, id, j)) <==>
            (exists j :: 0 <= j < |before| && IsLastAdd(before, id, j))
  {
    if j :| 0 <= j < |before| && IsLastAdd(before, id, j) {
      assert IsLastAdd(calls, id, j);
    }
  }

  // ---------- when the pointer can be enabled ----------

  lemma {:induction false} HasRoutes(rows: seq<Row>, id: string)
    ensures RoutesOf(rows, id) != [] <==> exists i :: 0 <= i < |rows| && rows[i].provider == id
  {
    if rows != [] {
      HasRoutes(rows[1..], id);
      if i :| 0 <= i < |rows| && rows[i].provider == id {
        assert i > 0 ==> rows[1..][i - 1] == rows[i];
      }
    }
  }

  /** The configured port is a number below 65536 with at most a plus sign and blanks around it. */
  lemma PortIsRead(settings: map<string, string>, before: string, sign: string, digits: string, behind: string)
    requires PORT_KEY in settings && settings[PORT_KEY] == before + (sign + digits) + behind
    requires IsBlankText(before) && IsBlankText(behind) && (sign == "" || sign == "+")
    requires digits != "" && AllDigits(digits)
    ensures ReadRouterPort(settings) == if Value(digits) < 65536 then Value(digits) else 8788
  {
    var core := sign + digits;
    assert core[|core| - 1] == digits[|digits| - 1] && core[|sign|..] == digits;
    assert sign == "" ==> core == digits;
    TrimStrips(before, core, behind);
  }

  /** Any other text, or none, means 8788. */
  lemma OtherPortIsDefault(settings: map<string, string>)
    returns (before: string, sign: string, digits: string, behind: string)
    requires ReadRouterPort(settings) != 8788
    ensures PORT_KEY in settings && settings[PORT_KEY] == before + (sign + digits) + behind
    ensures IsBlankText(before) && IsBlankText(behind) && (sign == "" || sign == "+")
    ensures digits != "" && AllDigits(digits) && Value(digits) == ReadRouterPort(settings) < 65536
  {
    before, behind := TrimParts(settings[PORT_KEY]);
    sign, digits := ParsedParts(Trim(settings[PORT_KEY]));
  }

  lemma ParsedParts(core: string) returns (sign: string, digits: string)
    requires ParseU64(core).Some?
    ensures core == sign + digits && (sign == "" || sign == "+")
    ensures digits != "" && AllDigits(digits) && Some(Value(digits)) == ParseU64(core)
  {
    if core != "" && core[0] == '+' {
      sign, digits := "+", core[1..];
    } else {
      sign, digits := "", core;
      NothingBefore(core);
    }
  }

  /** No call changes the configured port. */
  lemma {:induction false} PortStays(s: State, calls: seq<Call>)
    ensures ReadRouterPort(Run(s, calls).settings) == ReadRouterPort(s.settings)
  {
    if calls != [] {
      PortStays(s, calls[..|calls| - 1]);
      SettingStays(Run(s, calls[..|calls| - 1]), calls[|calls| - 1], PORT_KEY);
    }
  }

  lemma SettingStays(s: State, call: Call, key: string)
    requires key == PORT_KEY
    ensures key in After(s, call).settings <==> key in s.settings
    ensures key in s.settings ==> After(s, call).settings[key] == s.settings[key]
  {
    assert |PORT_KEY| == 11 && |POINTER_GAP_KEY| == 24;
    assert PORT_KEY[7] == 'p' && MODE_KEY[7] == 'm';
  }

  /** The last upsert of the provider asked for Responses and enabled it, and its last list has a route. */
  ghost predicate IsServing(s: State, calls: seq<Call>, id: string) {
    && LastAccepted(s, calls, id) != []
    && exists j :: 0 <= j < |calls| && IsLastAdd(calls, id, j)
                   && calls[j].input.enabled && calls[j].input.wireApi == "responses"
  }

  lemma ServesExactly(s: State, calls: seq<Call>, id: string)
    requires s.providers == map[]
    ensures var t := Run(s, calls);
            IsServing(s, calls, id) <==>
            && id in t.providers && t.providers[id].enabled && t.providers[id].wireApi.Responses?
            && exists i :: 0 <= i < |t.rows| && t.rows[i].provider == id
  {
    ProviderIsLastInput(s, calls, id);
    StoredIsLastAccepted(s, calls, id);
    HasRoutes(Run(s, calls).rows, id);
  }

  /**
   After any calls the pointer can be enabled if and only if it can be written, the router
   listens on its configured port, and some provider serves Responses.
   */
  lemma EnablesExactly(s: State, calls: seq<Call>, listening: Option<nat>, works: bool, markerWorks: bool)
    requires s.providers == map[]
    ensures Accepts(Run(s, calls), EnablePointer(listening, works, markerWorks)) <==>
            works && listening == Some(ReadRouterPort(s.settings)) && exists id :: IsServing(s, calls, id)
  {
    PortStays(s, calls);
    var t := Run(s, calls);
    forall id ensures IsServing(s, calls, id) <==>
      && id in t.providers && t.providers[id].enabled && t.providers[id].wireApi.Responses?
      && exists i :: 0 <= i < |t.rows| && t.rows[i].provider == id
    {
      ServesExactly(s, calls, id);
    }
    ReadyExactly(s, calls, t);
  }

  lemma ReadyExactly(s: State, calls: seq<Call>, t: State)
    requires forall id :: IsServing(s, calls, id) <==>
      && id in t.providers && t.providers[id].enabled && t.providers[id].wireApi.Responses?
      && exists i :: 0 <= i < |t.rows| && t.rows[i].provider == id
    ensures IsReady(t) <==> exists id :: IsServing(s, calls, id)
  {
    if IsReady(t) {
      var i :| 0 <= i < |t.rows| && t.rows[i].provider in t.providers
               && t.providers[t.rows[i].provider].enabled && t.providers[t.rows[i].provider].wireApi.Responses?;
      assert IsServing(s, calls, t.rows[i].provider);
    }
  }
}
