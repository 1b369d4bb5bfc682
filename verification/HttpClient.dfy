/**
 The lazily built global HTTP client. The class holds the four cells and the calls as one
 thread runs them; the system below interleaves any number of threads, one cell access at
 a time, under the one initialisation lock.
 */
module HttpClient {
  import opened Text

  /** A client is known by the proxy it was built for and whether it follows redirects. */
  datatype Client = Client(proxy: Option<string>, redirects: bool)

  datatype Cells = Cells(
    global: Option<Client>,
    noRedirect: Option<Client>,
    configured: Option<string>,
    current: Option<string>)

  const EMPTY := Cells(None, None, None, None)

  /** A blank URL means a direct connection. */
  function Effective(proxy: Option<string>): Option<string> {
    if proxy.Some? && IsBlankText(proxy.value) then None else proxy
  }

  /** Building without a proxy always works; with one it depends on the URL. */
  predicate Builds(proxy: Option<string>, valid: string -> bool) {
    proxy.None? || valid(proxy.value)
  }

  function Installed(proxy: Option<string>): Cells {
    Cells(Some(Client(proxy, true)), Some(Client(proxy, false)), proxy, proxy)
  }

  /** What a lazy `get` installs for a saved URL. */
  function LazyProxy(saved: Option<string>, valid: string -> bool): Option<string> {
    if Builds(saved, valid) then saved else None
  }

  class HttpClients {
    var global: Option<Client>
    var noRedirect: Option<Client>
    var configured: Option<string>
    var current: Option<string>

    function Contents(): Cells
      reads this
    {
      Cells(global, noRedirect, configured, current)
    }

    constructor ()
      ensures Contents() == EMPTY
    {
      global, noRedirect, configured, current := None, None, None, None;
    }

    /** Builds first and writes afterwards, so a failed build changes nothing. */
    method InstallClients(proxy: Option<string>, valid: string -> bool) returns (client: Option<Client>)
      modifies this
      ensures Builds(proxy, valid) ==> client == Some(Client(proxy, true)) && Contents() == Installed(proxy)
      ensures !Builds(proxy, valid) ==> client == None && Contents() == old(Contents())
    {
      if !Builds(proxy, valid) {
        return None;
      }
      global := Some(Client(proxy, true));
      noRedirect := Some(Client(proxy, false));
      configured := proxy;
      current := proxy;
      return global;
    }

    /**
     `init`, `apply_proxy` and `update_proxy` differ only in what they log. A URL is used
     if it builds and otherwise changes nothing; a blank or absent one means direct clients.
     */
    method Configure(proxy: Option<string>, valid: string -> bool) returns (ok: bool)
      modifies this
      ensures proxy.Some? && !IsBlankText(proxy.value) ==>
              && ok == valid(proxy.value)
              && Contents() == if ok then Cells(Some(Client(proxy, true)), Some(Client(proxy, false)), proxy, proxy)
                               else old(Contents())
      ensures proxy.None? || IsBlankText(proxy.value) ==>
              ok && Contents() == Cells(Some(Client(None, true)), Some(Client(None, false)), None, None)
    {
      var client := InstallClients(Effective(proxy), valid);
      return client.Some?;
    }

    method SetSavedProxyUrl(proxy: Option<string>)
      modifies this
      ensures proxy.Some? && !IsBlankText(proxy.value) ==> Contents() == old(Contents()).(configured := proxy)
      ensures proxy.None? || IsBlankText(proxy.value) ==> Contents() == old(Contents()).(configured := None)
    {
      configured := Effective(proxy);
    }

    method Get(valid: string -> bool) returns (client: Client)
      modifies this
      ensures Contents().global == Some(client)
      ensures old(global).Some? ==> Contents() == old(Contents())
      ensures old(global).None? ==> Contents() == Installed(LazyProxy(old(configured), valid))
    {
      if global.Some? {
        return global.value;
      }
      var installed := InstallClients(configured, valid);
      if installed.None? {
        installed := InstallClients(None, valid);
      }
      return installed.value;
    }
  }

  // ---------- threads ----------

  datatype Op = Get | GetNoRedirect | Configure(proxy: Option<string>) | SetSaved(proxy: Option<string>)

  datatype Answer = Got(client: Client) | NoClient | Done | Failed

  /** Where a call stands; from `Recheck` to `Release` it holds the lock. */
  datatype Pc =
    | FastRead
    | Locking
    | Recheck
    | ReadSaved
    | Building(proxy: Option<string>)
    | WriteGlobal(proxy: Option<string>)
    | WriteNoRedirect(proxy: Option<string>)
    | WriteConfigured(proxy: Option<string>)
    | WriteCurrent(proxy: Option<string>)
    | WriteSaved
    | Release(answer: Answer)
    | ReadNoRedirect
    | Returned(answer: Answer, at: nat)

  predicate Holds(pc: Pc) {
    !pc.FastRead? && !pc.Locking? && !pc.ReadNoRedirect? && !pc.Returned?
  }

  /** `since` is the instant at which the call began. */
  datatype Thread = Thread(op: Op, pc: Pc, since: nat)

  /**
   `history[k]` is the global client at instant k, the present being the last instant;
   `installs` counts the installations that have written the no-redirect client.
   */
  datatype System = System(
    cells: Cells, lock: Option<nat>, threads: map<nat, Thread>, history: seq<Option<Client>>, installs: nat)

  datatype Step = Call(thread: nat, op: Op) | Advance(thread: nat)

  predicate Enabled(s: System, step: Step) {
    match step
    case Call(t, _) => t !in s.threads
    case Advance(t) =>
      t in s.threads && !s.threads[t].pc.Returned? && (s.threads[t].pc.Locking? ==> s.lock.None?)
  }

  function FirstPc(op: Op): Pc {
    if op.Get? || op.GetNoRedirect? then FastRead else Locking
  }

  /** Where a call goes once it holds the lock. */
  function LockedPc(op: Op): Pc {
    match op
    case Get => Recheck
    case GetNoRedirect => Recheck
    case Configure(p) => Building(Effective(p))
    case SetSaved(_) => WriteSaved
  }

  /** The program point after the next access of a thread. */
  function NextPc(th: Thread, cells: Cells, now: nat, valid: string -> bool): Pc {
    match th.pc
    case FastRead => if cells.global.None? then Locking else Answering(th.op, Got(cells.global.value), now)
    case Locking => LockedPc(th.op)
    case Recheck => if cells.global.None? then ReadSaved else Release(Got(cells.global.value))
    case ReadSaved => Building(cells.configured)
    case Building(p) =>
      if Builds(p, valid) then WriteGlobal(p)
      else if th.op.Configure? then Release(Failed)
      else Building(None)
    case WriteGlobal(p) => WriteNoRedirect(p)
    case WriteNoRedirect(p) => WriteConfigured(p)
    case WriteConfigured(p) => WriteCurrent(p)
    case WriteCurrent(p) => Release(if th.op.Configure? then Done else Got(Client(p, true)))
    case WriteSaved => Release(Done)
    case Release(answer) => Answering(th.op, answer, now)
    case ReadNoRedirect => Returned(if cells.noRedirect.None? then NoClient else Got(cells.noRedirect.value), now)
    case Returned(_, _) => th.pc
  }

  /** `get_without_redirects` drops what `get` returned and reads the other cell. */
  function Answering(op: Op, answer: Answer, now: nat): Pc {
    if op.GetNoRedirect? then ReadNoRedirect else Returned(answer, now)
  }

  function NextCells(th: Thread, cells: Cells): Cells {
    match th.pc
    case WriteGlobal(p) => cells.(global := Some(Client(p, true)))
    case WriteNoRedirect(p) => cells.(noRedirect := Some(Client(p, false)))
    case WriteConfigured(p) => cells.(configured := p)
    case WriteCurrent(p) => cells.(current := p)
    case WriteSaved => if th.op.SetSaved? then cells.(configured := Effective(th.op.proxy)) else cells
    case _ => cells
  }

  function Apply(s: System, step: Step, valid: string -> bool): System
    requires Enabled(s, step)
  {
    var now := |s.history|;
    match step
    case Call(t, op) =>
      s.(threads := s.threads[t := Thread(op, FirstPc(op), now)], history := s.history + [s.cells.global])
    case Advance(t) =>
      var th := s.threads[t];
      var cells := NextCells(th, s.cells);
      System(
        cells,
        if th.pc.Locking? then Some(t) else if th.pc.Release? then None else s.lock,
        s.threads[t := th.(pc := NextPc(th, s.cells, now, valid))],
        s.history + [cells.global],
        s.installs + if th.pc.WriteNoRedirect? then 1 else 0)
  }

  predicate IsRun(s: System, steps: seq<Step>, valid: string -> bool)
    decreases |steps|
  {
    steps == [] || (Enabled(s, steps[0]) && IsRun(Apply(s, steps[0], valid), steps[1..], valid))
  }

  function Result(s: System, steps: seq<Step>, valid: string -> bool): System
    requires IsRun(s, steps, valid)
    decreases |steps|
  {
    if steps == [] then s else Result(Apply(s, steps[0], valid), steps[1..], valid)
  }

  function Start(cells: Cells): System {
    System(cells, None, map[], [cells.global], if cells.noRedirect.None? then 0 else 1)
  }

  // ---------- a call on its own ----------

  /** A call that runs alone: its program point and the cells. */
  datatype Alone = Alone(th: Thread, cells: Cells)

  function Go(a: Alone, steps: nat, valid: string -> bool): Alone
    decreases steps
  {
    if steps == 0 then a
    else Go(Alone(a.th.(pc := NextPc(a.th, a.cells, 0, valid)), NextCells(a.th, a.cells)), steps - 1, valid)
  }

  lemma {:induction false} GoOn(a: Alone, first: nat, more: nat, valid: string -> bool)
    ensures Go(a, first + more, valid) == Go(Go(a, first, valid), more, valid)
    decreases first
  {
    if first > 0 {
      GoOn(Go(a, 1, valid), first - 1, more, valid);
    }
  }

  /** The four writes, one at a time, install what `InstallClients` installs. */
  lemma WritesInstall(op: Op, since: nat, p: Option<string>, cells: Cells, valid: string -> bool)
    ensures var end := Go(Alone(Thread(op, WriteGlobal(p), since), cells), 4, valid);
            && end.cells == Installed(p)
            && end.th == Thread(op, Release(if op.Configure? then Done else Got(Client(p, true))), since)
  {
    var a0 := Alone(Thread(op, WriteGlobal(p), since), cells);
    var a1 := Go(a0, 1, valid);
    var a2 := Go(a1, 1, valid);
    var a3 := Go(a2, 1, valid);
    GoOn(a0, 1, 3, valid);
    GoOn(a1, 1, 2, valid);
    GoOn(a2, 1, 1, valid);
  }

  /** The thread of a lone `get` does what the method does. */
  lemma LoneGet(cells: Cells, valid: string -> bool) returns (steps: nat, client: Client)
    ensures var end := Go(Alone(Thread(Get, FastRead, 0), cells), steps, valid);
            && end.th.pc == Returned(Got(client), 0) && end.cells.global == Some(client)
            && end.cells == if cells.global.Some? then cells else Installed(LazyProxy(cells.configured, valid))
  {
    var start := Alone(Thread(Get, FastRead, 0), cells);
    if cells.global.Some? {
      steps, client := 1, cells.global.value;
      return;
    }
    var p := LazyProxy(cells.configured, valid);
    var before := if Builds(cells.configured, valid) then 5 else 6;
    client := Client(p, true);
    ReachesWrites(cells, valid, before);
    var writing := Alone(Thread(Get, WriteGlobal(p), 0), cells);
    WritesInstall(Get, 0, p, cells, valid);
    GoOn(start, before, 4, valid);
    GoOn(start, before + 4, 1, valid);
    steps := before + 4 + 1;
  }

  lemma ReachesWrites(cells: Cells, valid: string -> bool, before: nat)
    requires cells.global.None? && before == if Builds(cells.configured, valid) then 5 else 6
    ensures Go(Alone(Thread(Get, FastRead, 0), cells), before, valid)
         == Alone(Thread(Get, WriteGlobal(LazyProxy(cells.configured, valid)), 0), cells)
  {
    var start := Alone(Thread(Get, FastRead, 0), cells);
    var building := Alone(Thread(Get, Building(cells.configured), 0), cells);
    var locked := Go(start, 2, valid);
    assert locked == Alone(Thread(Get, Recheck, 0), cells);
    assert Go(locked, 2, valid) == building;
    GoOn(start, 2, 2, valid);
    GoOn(start, 4, before - 4, valid);
  }

  /** And the thread of a lone configuration call. */
  lemma LoneConfigure(cells: Cells, proxy: Option<string>, valid: string -> bool) returns (steps: nat, ok: bool)
    ensures var end := Go(Alone(Thread(Configure(proxy), Locking, 0), cells), steps, valid);
            && end.th.pc == Returned(if ok then Done else Failed, 0)
            && (proxy.Some? && !IsBlankText(proxy.value) ==>
                 && ok == valid(proxy.value)
                 && end.cells == if ok then Cells(Some(Client(proxy, true)), Some(Client(proxy, false)), proxy, proxy)
                                 else cells)
            && (proxy.None? || IsBlankText(proxy.value) ==>
                 ok && end.cells == Cells(Some(Client(None, true)), Some(Client(None, false)), None, None))
  {
    var op, p := Configure(proxy), Effective(proxy);
    var start := Alone(Thread(op, Locking, 0), cells);
    ok := Builds(p, valid);
    var built := Go(start, 2, valid);
    if ok {
      assert built == Alone(Thread(op, WriteGlobal(p), 0), cells);
      WritesInstall(op, 0, p, cells, valid);
      GoOn(start, 2, 4, valid);
      GoOn(start, 6, 1, valid);
      steps := 7;
    } else {
      assert built == Alone(Thread(op, Release(Failed), 0), cells);
      GoOn(start, 2, 1, valid);
      steps := 3;
    }
  }

  /** And the thread that saves a URL, the blank one being none. */
  lemma LoneSetSaved(cells: Cells, proxy: Option<string>, valid: string -> bool)
    ensures var end := Go(Alone(Thread(SetSaved(proxy), Locking, 0), cells), 3, valid);
            && end.th.pc == Returned(Done, 0)
            && (proxy.Some? && !IsBlankText(proxy.value) ==> end.cells == cells.(configured := proxy))
            && (proxy.None? || IsBlankText(proxy.value) ==> end.cells == cells.(configured := None))
  {
    var start := Alone(Thread(SetSaved(proxy), Locking, 0), cells);
    GoOn(start, 1, 2, valid);
    GoOn(Go(start, 1, valid), 1, 1, valid);
  }

  // ---------- agreement ----------

  /** The two clients and the URL record belong to one URL, or nothing is installed yet. */
  predicate Agree(c: Cells) {
    match c.global
    case None => c.noRedirect.None? && c.current.None?
    case Some(g) => g.redirects && c.noRedirect == Some(Client(g.proxy, false)) && c.current == g.proxy
  }

  /** What holds of the cells while the lock is held at `pc`. */
  predicate CellsAt(pc: Pc, c: Cells) {
    match pc
    case WriteNoRedirect(p) =>
      c.global == Some(Client(p, true)) && (c.noRedirect.Some? ==> !c.noRedirect.value.redirects)
    case WriteConfigured(p) => c.global == Some(Client(p, true)) && c.noRedirect == Some(Client(p, false))
    case WriteCurrent(p) =>
      c.global == Some(Client(p, true)) && c.noRedirect == Some(Client(p, false)) && c.configured == p
    case _ => Agree(c)
  }

  /** `c` was the global client at some instant from `since` to `until`. */
  ghost predicate WasGlobal(s: System, c: Client, since: nat, until: int) {
    exists k :: since <= k <= until && k < |s.history| && s.history[k] == Some(c)
  }

  ghost predicate AnswerInv(s: System, th: Thread, answer: Answer, until: int, valid: string -> bool) {
    && (th.op.Configure? ==>
         if Builds(Effective(th.op.proxy), valid)
         then answer == Done && WasGlobal(s, Client(Effective(th.op.proxy), true), th.since, until)
         else answer == Failed)
    && (th.op == Get ==> answer.Got? && answer.client.redirects && WasGlobal(s, answer.client, th.since, until))
    && (th.op == GetNoRedirect ==> answer.Got?)
  }

  ghost predicate ThreadInv(s: System, th: Thread, valid: string -> bool) {
    && th.since < |s.history|
    && (match th.pc
        case FastRead => th.op.Get? || th.op.GetNoRedirect?
        case Locking => true
        case Recheck => th.op.Get? || th.op.GetNoRedirect?
        case ReadSaved => (th.op.Get? || th.op.GetNoRedirect?) && s.cells.global.None?
        case WriteSaved => th.op.SetSaved?
        case Release(answer) =>
          && AnswerInv(s, th, answer, |s.history| - 1, valid)
          && (th.op == GetNoRedirect ==> s.cells.global.Some?)
          && (th.op.Configure? && answer == Done ==> s.cells == Installed(Effective(th.op.proxy)))
        case ReadNoRedirect => th.op == GetNoRedirect && s.cells.global.Some?
        case Returned(answer, at) =>
          && at < |s.history|
          && (th.op == GetNoRedirect ==> answer == NoClient || (answer.Got? && !answer.client.redirects))
          && (th.op != GetNoRedirect ==> AnswerInv(s, th, answer, at, valid))
        case Building(p) => MayInstall(th.op, p)
        case WriteGlobal(p) => MayInstall(th.op, p) && Builds(p, valid)
        case WriteNoRedirect(p) => MayInstall(th.op, p) && Builds(p, valid) && Wrote(s, th, p)
        case WriteConfigured(p) => MayInstall(th.op, p) && Builds(p, valid) && Wrote(s, th, p)
        case WriteCurrent(p) => MayInstall(th.op, p) && Builds(p, valid) && Wrote(s, th, p))
  }

  predicate MayInstall(op: Op, p: Option<string>) {
    !op.SetSaved? && (op.Configure? ==> p == Effective(op.proxy))
  }

  ghost predicate Wrote(s: System, th: Thread, p: Option<string>) {
    WasGlobal(s, Client(p, true), th.since, |s.history| - 1)
  }

  /** The part of the invariant about the lock and the cells. */
  ghost predicate LockInv(s: System) {
    && s.history != [] && s.history[|s.history| - 1] == s.cells.global
    && (s.installs == 0 <==> s.cells.noRedirect.None?)
    && (s.lock.None? ==> Agree(s.cells))
    && (s.lock.Some? ==> s.lock.value in s.threads && CellsAt(s.threads[s.lock.value].pc, s.cells))
    && (forall t | t in s.threads :: (Holds(s.threads[t].pc) <==> s.lock == Some(t)))
  }

  ghost predicate Inv(s: System, valid: string -> bool) {
    && LockInv(s)
    && (forall t | t in s.threads :: ThreadInv(s, s.threads[t], valid))
  }

  lemma WasGlobalStays(s: System, t: System, c: Client, since: nat, until: int, later: int)
    requires WasGlobal(s, c, since, until) && s.history <= t.history && until <= later
    ensures WasGlobal(t, c, since, later)
  {
    var k :| since <= k <= until && k < |s.history| && s.history[k] == Some(c);
    assert t.history[k] == s.history[k];
  }

  lemma AnswerStays(
    s: System, t: System, th: Thread, answer: Answer, until: int, later: int, valid: string -> bool)
    requires AnswerInv(s, th, answer, until, valid) && s.history <= t.history && until <= later
    ensures AnswerInv(t, th, answer, later, valid)
  {
    if th.op == Get {
      WasGlobalStays(s, t, answer.client, th.since, until, later);
    }
    if th.op.Configure? && answer == Done {
      WasGlobalStays(s, t, Client(Effective(th.op.proxy), true), th.since, until, later);
    }
  }

  /** A thread that does not move keeps its part of the invariant. */
  lemma OtherThreadStays(s: System, t: System, th: Thread, valid: string -> bool)
    requires ThreadInv(s, th, valid)
    requires s.history <= t.history
    requires s.cells.global.Some? ==> t.cells.global.Some?
    requires Holds(th.pc) ==> s.cells == t.cells
    ensures ThreadInv(t, th, valid)
  {
    var now, later := |s.history| - 1, |t.history| - 1;
    match th.pc
    case Release(answer) => AnswerStays(s, t, th, answer, now, later, valid);
    case Returned(answer, at) =>
      if th.op != GetNoRedirect { AnswerStays(s, t, th, answer, at, at, valid); }
    case WriteNoRedirect(p) => WasGlobalStays(s, t, Client(p, true), th.since, now, later);
    case WriteConfigured(p) => WasGlobalStays(s, t, Client(p, true), th.since, now, later);
    case WriteCurrent(p) => WasGlobalStays(s, t, Client(p, true), th.since, now, later);
    case _ =>
  }

  /** The moving thread's part of the invariant. */
  lemma MovingThread(s: System, t: nat, valid: string -> bool)
    requires Inv(s, valid) && Enabled(s, Advance(t))
    ensures var s' := Apply(s, Advance(t), valid); ThreadInv(s', s'.threads[t], valid)
  {
    var th := s.threads[t];
    var s' := Apply(s, Advance(t), valid);
    var now := |s.history|;
    assert s.history <= s'.history;
    match th.pc
    case FastRead => if s.cells.global.Some? { assert s'.history[now] == s.cells.global; }
    case Recheck => if s.cells.global.Some? { assert s'.history[now] == s.cells.global; }
    case WriteGlobal(p) => assert s'.history[now] == Some(Client(p, true));
    case WriteNoRedirect(p) => WasGlobalStays(s, s', Client(p, true), th.since, now - 1, now);
    case WriteConfigured(p) => WasGlobalStays(s, s', Client(p, true), th.since, now - 1, now);
    case WriteCurrent(p) => WasGlobalStays(s, s', Client(p, true), th.since, now - 1, now);
    case Release(answer) =>
      AnswerStays(s, s', th, answer, now - 1, now, valid);
    case _ =>
  }

  lemma StepKeepsLockInv(s: System, step: Step, valid: string -> bool)
    requires Inv(s, valid) && Enabled(s, step)
    ensures LockInv(Apply(s, step, valid))
  {
    if step.Advance? {
      assert ThreadInv(s, s.threads[step.thread], valid);
    }
  }

  lemma StepKeepsInv(s: System, step: Step, valid: string -> bool)
    requires Inv(s, valid) && Enabled(s, step)
    ensures Inv(Apply(s, step, valid), valid)
  {
    var s' := Apply(s, step, valid);
    StepKeepsLockInv(s, step, valid);
    if step.Advance? {
      MovingThread(s, step.thread, valid);
    }
    forall u | u in s'.threads && u != step.thread ensures ThreadInv(s', s'.threads[u], valid) {
      OtherThreadStays(s, s', s.threads[u], valid);
    }
  }

  lemma {:induction false} RunKeepsInv(s: System, steps: seq<Step>, valid: string -> bool)
    requires Inv(s, valid) && IsRun(s, steps, valid)
    ensures Inv(Result(s, steps, valid), valid)
    decreases |steps|
  {
    if steps != [] {
      StepKeepsInv(s, steps[0], valid);
      RunKeepsInv(Apply(s, steps[0], valid), steps[1..], valid);
    }
  }

  // ---------- what callers can rely on ----------

  /**
   Over every interleaving of any calls: whenever the lock is free the redirecting client,
   the no-redirect client and the current-URL record belong to one URL.
   */
  lemma AgreementWhenFree(steps: seq<Step>, valid: string -> bool)
    requires IsRun(Start(EMPTY), steps, valid)
    ensures var s := Result(Start(EMPTY), steps, valid); s.lock.None? ==> Agree(s.cells)
  {
    RunKeepsInv(Start(EMPTY), steps, valid);
  }

  /**
   Every client a `get` returns follows redirects and was the global client at some instant
   of that call; every client `get_without_redirects` returns follows none.
   */
  lemma ClientsReturned(steps: seq<Step>, valid: string -> bool, t: nat)
    requires IsRun(Start(EMPTY), steps, valid)
    ensures var s := Result(Start(EMPTY), steps, valid);
            t in s.threads && s.threads[t].pc.Returned? ==>
              var Thread(op, Returned(answer, at), since) := s.threads[t];
              && (op == Get ==> answer.Got? && answer.client.redirects && WasGlobal(s, answer.client, since, at))
              && (op == GetNoRedirect ==> answer == NoClient || (answer.Got? && !answer.client.redirects))
  {
    RunKeepsInv(Start(EMPTY), steps, valid);
    var s := Result(Start(EMPTY), steps, valid);
    if t in s.threads {
      assert ThreadInv(s, s.threads[t], valid);
    }
  }

  /**
   A configuration call fails exactly when its URL is given and does not build, and then no
   step of it ever changes any of the four cells.
   */
  lemma FailedBuildChangesNothing(steps: seq<Step>, valid: string -> bool, t: nat, proxy: Option<string>)
    requires IsRun(Start(EMPTY), steps, valid)
    requires var s := Result(Start(EMPTY), steps, valid); t in s.threads && s.threads[t].op == Configure(proxy)
    ensures var s := Result(Start(EMPTY), steps, valid);
            && (proxy.Some? && !IsBlankText(proxy.value) && !valid(proxy.value) ==>
                 && (Enabled(s, Advance(t)) ==> Apply(s, Advance(t), valid).cells == s.cells)
                 && (s.threads[t].pc.Returned? ==> s.threads[t].pc.answer == Failed))
            && (proxy.None? || IsBlankText(proxy.value) || valid(proxy.value) ==>
                 (s.threads[t].pc.Returned? ==> s.threads[t].pc.answer == Done))
  {
    RunKeepsInv(Start(EMPTY), steps, valid);
    var s := Result(Start(EMPTY), steps, valid);
    assert ThreadInv(s, s.threads[t], valid);
  }

  /**
   A configuration call that ends well leaves, as it lets go of the lock, two clients and two
   records for its own URL, or direct ones if it has none; and the redirecting client of that
   URL was the global one at some instant of the call.
   */
  lemma ConfigureInstallsItsUrl(steps: seq<Step>, valid: string -> bool, t: nat, proxy: Option<string>)
    requires IsRun(Start(EMPTY), steps, valid)
    requires var s := Result(Start(EMPTY), steps, valid); t in s.threads && s.threads[t].op == Configure(proxy)
    ensures var s := Result(Start(EMPTY), steps, valid);
            var Thread(_, pc, since) := s.threads[t];
            && (proxy.Some? && !IsBlankText(proxy.value) ==>
                 && (pc == Release(Done) ==>
                      s.cells == Cells(Some(Client(proxy, true)), Some(Client(proxy, false)), proxy, proxy))
                 && (pc.Returned? && pc.answer == Done ==> WasGlobal(s, Client(proxy, true), since, pc.at)))
            && (proxy.None? || IsBlankText(proxy.value) ==>
                 && (pc == Release(Done) ==>
                      s.cells == Cells(Some(Client(None, true)), Some(Client(None, false)), None, None))
                 && (pc.Returned? && pc.answer == Done ==> WasGlobal(s, Client(None, true), since, pc.at)))
  {
    RunKeepsInv(Start(EMPTY), steps, valid);
    var s := Result(Start(EMPTY), steps, valid);
    assert ThreadInv(s, s.threads[t], valid);
  }

  // ---------- a saved proxy is never bypassed ----------

  predicate IsGetOrSave(op: Op, url: string) {
    op.Get? || op.GetNoRedirect? || op == SetSaved(Some(url))
  }

  /** Every call reads a client or saves this URL. */
  predicate OnlyGets(steps: seq<Step>, url: string) {
    forall i | 0 <= i < |steps| :: steps[i].Call? ==> IsGetOrSave(steps[i].op, url)
  }

  predicate PcFor(pc: Pc, url: string) {
    match pc
    case Building(p) => p == Some(url)
    case WriteGlobal(p) => p == Some(url)
    case WriteNoRedirect(p) => p == Some(url)
    case WriteConfigured(p) => p == Some(url)
    case WriteCurrent(p) => p == Some(url)
    case Release(answer) => answer.Got? ==> answer.client.proxy == Some(url)
    case Returned(answer, _) => answer.Got? ==> answer.client.proxy == Some(url)
    case _ => true
  }

  ghost predicate ProxyInv(s: System, url: string) {
    && s.cells.configured == Some(url)
    && (s.cells.global.Some? ==> s.cells.global.value.proxy == Some(url))
    && (s.cells.noRedirect.Some? ==> s.cells.noRedirect.value.proxy == Some(url))
    && (forall t | t in s.threads ::
         && IsGetOrSave(s.threads[t].op, url) && PcFor(s.threads[t].pc, url))
  }

  lemma {:induction false} GetsKeepProxy(s: System, steps: seq<Step>, valid: string -> bool, url: string)
    requires valid(url) && !IsBlankText(url)
    requires ProxyInv(s, url) && OnlyGets(steps, url) && IsRun(s, steps, valid)
    ensures ProxyInv(Result(s, steps, valid), url)
    decreases |steps|
  {
    if steps != [] {
      assert steps[0].Call? ==> IsGetOrSave(steps[0].op, url);
      GetsKeepProxy(Apply(s, steps[0], valid), steps[1..], valid, url);
    }
  }

  /** Every call saves this URL. */
  predicate OnlySaves(steps: seq<Step>, url: string) {
    forall i | 0 <= i < |steps| :: steps[i].Call? ==> steps[i].op == SetSaved(Some(url))
  }

  /** Nothing is built, and the URL is on record once a call has written it. */
  ghost predicate SavedInv(s: System, url: string) {
    && s.cells.global.None? && s.cells.noRedirect.None?
    && (forall t | t in s.threads ::
         && s.threads[t].op == SetSaved(Some(url))
         && (s.threads[t].pc.Locking? || s.threads[t].pc.WriteSaved? || s.threads[t].pc == Release(Done)
             || (s.threads[t].pc.Returned? && s.threads[t].pc.answer == Done))
         && (s.threads[t].pc.Release? || s.threads[t].pc.Returned? ==> s.cells.configured == Some(url)))
  }

  lemma {:induction false} SavesKeepInv(s: System, steps: seq<Step>, valid: string -> bool, url: string)
    requires !IsBlankText(url) && SavedInv(s, url) && OnlySaves(steps, url) && IsRun(s, steps, valid)
    ensures SavedInv(Result(s, steps, valid), url)
    decreases |steps|
  {
    if steps != [] {
      assert steps[0].Call? ==> steps[0].op == SetSaved(Some(url));
      SavesKeepInv(Apply(s, steps[0], valid), steps[1..], valid, url);
    }
  }

  /**
   Once a call has saved a URL that is not blank and builds, and while no call saves another
   or configures, no interleaving of gets, from before anything is built, ever returns a
   direct client or one for another URL.
   */
  lemma NeverBypassesProxy(saves: seq<Step>, steps: seq<Step>, valid: string -> bool, url: string, saved: nat, t: nat)
    requires valid(url) && !IsBlankText(url)
    requires OnlySaves(saves, url) && IsRun(Start(EMPTY), saves, valid)
    requires var s := Result(Start(EMPTY), saves, valid);
             && saved in s.threads && s.threads[saved].pc.Returned?
             && OnlyGets(steps, url) && IsRun(s, steps, valid) && t in Result(s, steps, valid).threads
    ensures var th := Result(Result(Start(EMPTY), saves, valid), steps, valid).threads[t];
            th.pc.Returned? && th.pc.answer.Got? ==> th.pc.answer.client.proxy == Some(url)
  {
    SavesKeepInv(Start(EMPTY), saves, valid, url);
    GetsKeepProxy(Result(Start(EMPTY), saves, valid), steps, valid, url);
  }

  // ---------- get_without_redirects ----------

  /**
   When it comes to read its own cell, `get_without_redirects` finds no client if and only
   if the very first installation is between its first two writes.
   */
  lemma NoClientExactly(steps: seq<Step>, valid: string -> bool, t: nat)
    requires IsRun(Start(EMPTY), steps, valid)
    requires var s := Result(Start(EMPTY), steps, valid); t in s.threads && s.threads[t].pc == ReadNoRedirect
    ensures var s := Result(Start(EMPTY), steps, valid);
            NextPc(s.threads[t], s.cells, |s.history|, valid) == Returned(NoClient, |s.history|)
            <==> s.installs == 0 && s.lock.Some? && s.lock.value in s.threads
                 && s.threads[s.lock.value].pc.WriteNoRedirect?
  {
    RunKeepsInv(Start(EMPTY), steps, valid);
    var s := Result(Start(EMPTY), steps, valid);
    assert ThreadInv(s, s.threads[t], valid);
  }

  lemma RunOneMore(s: System, step: Step, steps: seq<Step>, valid: string -> bool)
    requires Enabled(s, step) && IsRun(Apply(s, step, valid), steps, valid)
    ensures IsRun(s, [step] + steps, valid)
    ensures Result(s, [step] + steps, valid) == Result(Apply(s, step, valid), steps, valid)
  {
    assert ([step] + steps)[1..] == steps;
  }

  ghost predicate Reaches(s: System, end: System, valid: string -> bool) {
    exists steps :: IsRun(s, steps, valid) && Result(s, steps, valid) == end
  }

  lemma StepThenReach(s: System, step: Step, end: System, valid: string -> bool)
    requires Enabled(s, step) && Reaches(Apply(s, step, valid), end, valid)
    ensures Reaches(s, end, valid)
  {
    var steps :| IsRun(Apply(s, step, valid), steps, valid) && Result(Apply(s, step, valid), steps, valid) == end;
    RunOneMore(s, step, steps, valid);
  }

  /** Thread 0 lazily installs a direct client and has written only the first cell. */
  const HALF_INSTALLED := System(
    EMPTY.(global := Some(Client(None, true))), Some(0), map[0 := Thread(Get, WriteNoRedirect(None), 1)],
    [None, None, None, None, None, None, None, Some(Client(None, true))], 0)

  /** Thread 0, alone, at `pc` of its lazy `get`, with nothing written yet. */
  function FirstCall(pc: Pc, history: seq<Option<Client>>): System {
    System(EMPTY, if Holds(pc) then Some(0) else None, map[0 := Thread(Get, pc, 1)], history, 0)
  }

  lemma MapSetAgain<K, V>(key: K, before: V, after: V)
    ensures map[key := before][key := after] == map[key := after]
  {
  }

  lemma FirstCallAdvances(pc: Pc, history: seq<Option<Client>>, end: System, valid: string -> bool)
    requires pc.FastRead? || pc.Locking? || pc.Recheck? || pc.ReadSaved? || pc == Building(None)
    requires Reaches(FirstCall(NextPc(Thread(Get, pc, 1), EMPTY, |history|, valid), history + [None]), end, valid)
    ensures Reaches(FirstCall(pc, history), end, valid)
  {
    var th := Thread(Get, pc, 1);
    var next := NextPc(th, EMPTY, |history|, valid);
    MapSetAgain(0, th, th.(pc := next));
    assert Apply(FirstCall(pc, history), Advance(0), valid) == FirstCall(next, history + [None]);
    StepThenReach(FirstCall(pc, history), Advance(0), end, valid);
  }

  lemma HalfInstalledReachable(end: System, valid: string -> bool)
    requires Reaches(HALF_INSTALLED, end, valid)
    ensures Reaches(Start(EMPTY), end, valid)
  {
    var h1: seq<Option<Client>> := [None, None];
    var h2 := h1 + [None];
    var h3 := h2 + [None];
    var h4 := h3 + [None];
    var h5 := h4 + [None];
    var h6 := h5 + [None];
    assert Apply(FirstCall(WriteGlobal(None), h6), Advance(0), valid) == HALF_INSTALLED;
    StepThenReach(FirstCall(WriteGlobal(None), h6), Advance(0), end, valid);
    FirstCallAdvances(Building(None), h5, end, valid);
    FirstCallAdvances(ReadSaved, h4, end, valid);
    FirstCallAdvances(Recheck, h3, end, valid);
    FirstCallAdvances(Locking, h2, end, valid);
    FirstCallAdvances(FastRead, h1, end, valid);
    var th := Thread(Get, FastRead, 1);
    assert Start(EMPTY).threads[0 := th] == map[0 := th];
    assert [None] + [None] == h1;
    assert Apply(Start(EMPTY), Call(0, Get), valid) == FirstCall(FastRead, h1);
    StepThenReach(Start(EMPTY), Call(0, Get), end, valid);
  }

  lemma AskerFindsNothing(valid: string -> bool) returns (end: System)
    ensures Reaches(HALF_INSTALLED, end, valid)
    ensures 1 in end.threads && end.threads[1].op == GetNoRedirect && end.threads[1].pc == Returned(NoClient, 10)
  {
    var called := Apply(HALF_INSTALLED, Call(1, GetNoRedirect), valid);
    var read := Apply(called, Advance(1), valid);
    end := Apply(read, Advance(1), valid);
    assert IsRun(end, [], valid) && Result(end, [], valid) == end;
    StepThenReach(read, Advance(1), end, valid);
    StepThenReach(called, Advance(1), end, valid);
    StepThenReach(HALF_INSTALLED, Call(1, GetNoRedirect), end, valid);
  }

  /** That instant is reachable, and a thread that asks then gets no client. */
  lemma NoClientHappens(valid: string -> bool) returns (end: System)
    ensures Reaches(Start(EMPTY), end, valid)
    ensures 1 in end.threads && end.threads[1].op == GetNoRedirect && end.threads[1].pc == Returned(NoClient, 10)
  {
    end := AskerFindsNothing(valid);
    HalfInstalledReachable(end, valid);
  }
}
