/**
 The two-part native policy behind the tray: Dock visibility and activation policy change
 together with a stored flag, or are rolled back. The class is one commit; the system
 interleaves any number of them, one native call at a time, under the transaction lock.
 */
module TrayPolicy {
  import opened Text

  /** A half of the native policy; `None` when a failed call left neither value. */
  datatype Native = Native(dock: Option<bool>, policy: Option<bool>)

  /** A native call does what it should, or fails having changed anything at all. */
  datatype Outcome = Works | Fails(left: Native)

  datatype State = State(native: Native, flag: bool)

  datatype Outcomes = Outcomes(setDock: Outcome, setPolicy: Outcome, undoPolicy: Outcome, undoDock: Outcome)

  datatype Result = Committed(previous: bool) | Refused

  function SetDock(native: Native, visible: bool, outcome: Outcome): Native {
    if outcome.Works? then native.(dock := Some(visible)) else outcome.left
  }

  function SetPolicy(native: Native, visible: bool, outcome: Outcome): Native {
    if outcome.Works? then native.(policy := Some(visible)) else outcome.left
  }

  /** Both halves say `visible`. */
  function Both(visible: bool): Native {
    Native(Some(visible), Some(visible))
  }

  predicate Accepted(o: Outcomes) {
    o.setDock.Works? && o.setPolicy.Works?
  }

  /** The commit ended in a known state: it was accepted, or both halves were restored. */
  predicate Settled(o: Outcomes) {
    Accepted(o) || (o.undoPolicy.Works? && o.undoDock.Works?)
  }

  /** Natively, a refused commit ends with what the two restoring calls make of it. */
  function Restored(native: Native, visible: bool, previous: bool, o: Outcomes): Native {
    var tried := SetDock(native, visible, o.setDock);
    var failed := if o.setDock.Works? then SetPolicy(tried, visible, o.setPolicy) else tried;
    SetDock(SetPolicy(failed, previous, o.undoPolicy), previous, o.undoDock)
  }

  function AfterCommit(s: State, visible: bool, o: Outcomes): State {
    if Accepted(o) then State(Both(visible), visible) else State(Restored(s.native, visible, s.flag, o), s.flag)
  }

  function ResultOf(s: State, o: Outcomes): Result {
    if Accepted(o) then Committed(s.flag) else Refused
  }

  class TrayPolicy {
    var native: Native
    var flag: bool

    constructor (initial: Native)
      ensures Current() == State(initial, false)
    {
      native, flag := initial, false;
    }

    function Current(): State
      reads this
    {
      State(native, flag)
    }

    /** One transaction, with the outcomes its native calls happen to have. */
    method Commit(visible: bool, o: Outcomes) returns (result: Result)
      modifies this
      ensures Current() == AfterCommit(old(Current()), visible, o)
      ensures result == ResultOf(old(Current()), o)
      ensures Settled(o) ==> native == Both(flag) && flag == if result.Committed? then visible else old(flag)
    {
      var previous := flag;
      native := SetDock(native, visible, o.setDock);
      if o.setDock.Fails? {
        native := SetPolicy(native, previous, o.undoPolicy);
        native := SetDock(native, previous, o.undoDock);
        return Refused;
      }
      native := SetPolicy(native, visible, o.setPolicy);
      if o.setPolicy.Fails? {
        native := SetPolicy(native, previous, o.undoPolicy);
        native := SetDock(native, previous, o.undoDock);
        return Refused;
      }
      flag := visible;
      return Committed(previous);
    }
  }

  // ---------- concurrent commits ----------

  /** From `Loading` to `Releasing` a commit holds the lock. */
  datatype Pc =
    | Locking
    | Loading
    | SettingDock
    | SettingPolicy
    | UndoingPolicy
    | UndoingDock
    | Storing
    | Releasing(result: Result)
    | Finished(result: Result)

  predicate Holds(pc: Pc) {
    !pc.Locking? && !pc.Finished?
  }

  /** `o` collects the outcomes of the native calls so far; calls not made count as working. */
  datatype Thread = Thread(visible: bool, previous: bool, o: Outcomes, pc: Pc)

  datatype Entry = Entry(visible: bool, o: Outcomes, result: Result)

  /** `log` lists the finished commits in the order in which they held the lock. */
  datatype System = System(
    native: Native, flag: bool, lock: Option<nat>, threads: map<nat, Thread>, log: seq<Entry>)

  datatype Step = Call(thread: nat, visible: bool) | Advance(thread: nat, outcome: Outcome)

  const ALL_WORK := Outcomes(Works, Works, Works, Works)

  predicate Enabled(s: System, step: Step) {
    match step
    case Call(t, _) => t !in s.threads
    case Advance(t, _) =>
      t in s.threads && !s.threads[t].pc.Finished? && (s.threads[t].pc.Locking? ==> s.lock.None?)
  }

  function Moved(th: Thread, flag: bool, outcome: Outcome): Thread {
    match th.pc
    case Locking => th.(pc := Loading)
    case Loading => th.(previous := flag, pc := SettingDock)
    case SettingDock =>
      th.(o := th.o.(setDock := outcome), pc := if outcome.Works? then SettingPolicy else UndoingPolicy)
    case SettingPolicy =>
      th.(o := th.o.(setPolicy := outcome), pc := if outcome.Works? then Storing else UndoingPolicy)
    case UndoingPolicy => th.(o := th.o.(undoPolicy := outcome), pc := UndoingDock)
    case UndoingDock => th.(o := th.o.(undoDock := outcome), pc := Releasing(Refused))
    case Storing => th.(pc := Releasing(Committed(th.previous)))
    case Releasing(result) => th.(pc := Finished(result))
    case Finished(_) => th
  }

  function NativeAfter(th: Thread, native: Native, outcome: Outcome): Native {
    match th.pc
    case SettingDock => SetDock(native, th.visible, outcome)
    case SettingPolicy => SetPolicy(native, th.visible, outcome)
    case UndoingPolicy => SetPolicy(native, th.previous, outcome)
    case UndoingDock => SetDock(native, th.previous, outcome)
    case _ => native
  }

  function Apply(s: System, step: Step): System
    requires Enabled(s, step)
  {
    match step
    case Call(t, visible) => s.(threads := s.threads[t := Thread(visible, false, ALL_WORK, Locking)])
    case Advance(t, outcome) =>
      var th := s.threads[t];
      System(
        NativeAfter(th, s.native, outcome),
        if th.pc.Storing? then th.visible else s.flag,
        if th.pc.Locking? then Some(t) else if th.pc.Releasing? then None else s.lock,
        s.threads[t := Moved(th, s.flag, outcome)],
        s.log + if th.pc.Releasing? then [Entry(th.visible, th.o, th.pc.result)] else [])
  }

  predicate IsRun(s: System, steps: seq<Step>)
    decreases |steps|
  {
    steps == [] || (Enabled(s, steps[0]) && IsRun(Apply(s, steps[0]), steps[1..]))
  }

  function End(s: System, steps: seq<Step>): System
    requires IsRun(s, steps)
    decreases |steps|
  {
    if steps == [] then s else End(Apply(s, steps[0]), steps[1..])
  }

  function Start(initial: State): System {
    System(initial.native, initial.flag, None, map[], [])
  }

  // ---------- one commit after the other ----------

  /** The state after the logged commits, run one at a time. */
  function Replay(initial: State, log: seq<Entry>): State {
    if log == [] then initial else
      var last := log[|log| - 1];
      AfterCommit(Replay(initial, log[..|log| - 1]), last.visible, last.o)
  }

  /** The value of the last accepted commit, or the initial flag. */
  function LastCommitted(initial: bool, log: seq<Entry>): bool {
    if log == [] then initial
    else if log[|log| - 1].result.Committed? then log[|log| - 1].visible
    else LastCommitted(initial, log[..|log| - 1])
  }

  ghost predicate ResultsFit(initial: State, log: seq<Entry>) {
    forall k | 0 <= k < |log| :: log[k].result == ResultOf(Replay(initial, log[..k]), log[k].o)
  }

  /** What the holder of the lock has made of the state it found. */
  predicate Midway(found: State, th: Thread, now: State) {
    var dockTried := SetDock(found.native, th.visible, th.o.setDock);
    var tried := if th.o.setDock.Works? then SetPolicy(dockTried, th.visible, th.o.setPolicy) else dockTried;
    match th.pc
    case Locking => false
    case Loading => now == found && th.o == ALL_WORK
    case SettingDock => now == found && th.o == ALL_WORK && th.previous == found.flag
    case SettingPolicy =>
      now == State(dockTried, found.flag) && th.o == ALL_WORK && th.previous == found.flag
    case UndoingPolicy =>
      && now == State(tried, found.flag) && th.previous == found.flag && !Accepted(th.o)
    case UndoingDock =>
      && now == State(SetPolicy(tried, found.flag, th.o.undoPolicy), found.flag)
      && th.previous == found.flag && !Accepted(th.o)
    case Storing => now == State(Both(th.visible), found.flag) && Accepted(th.o) && th.previous == found.flag
    case Releasing(result) =>
      now == AfterCommit(found, th.visible, th.o) && result == ResultOf(found, th.o)
    case Finished(_) => false
  }

  ghost predicate Inv(initial: State, s: System) {
    var found := Replay(initial, s.log);
    && (forall t | t in s.threads && Holds(s.threads[t].pc) :: s.lock == Some(t))
    && (forall t | t in s.threads && s.threads[t].pc.Locking? :: s.threads[t].o == ALL_WORK)
    && match s.lock
       case None => State(s.native, s.flag) == found
       case Some(t) => t in s.threads && Midway(found, s.threads[t], State(s.native, s.flag))
  }

  lemma MidwayStep(found: State, th: Thread, native: Native, flag: bool, outcome: Outcome)
    requires Midway(found, th, State(native, flag)) && !th.pc.Releasing?
    ensures Midway(found, Moved(th, flag, outcome),
                   State(NativeAfter(th, native, outcome), if th.pc.Storing? then th.visible else flag))
  {
  }

  lemma LogOneMore(initial: State, log: seq<Entry>, entry: Entry)
    ensures Replay(initial, log + [entry]) == AfterCommit(Replay(initial, log), entry.visible, entry.o)
    ensures ResultsFit(initial, log) && entry.result == ResultOf(Replay(initial, log), entry.o) ==>
              ResultsFit(initial, log + [entry])
  {
    var all := log + [entry];
    assert all[..|log|] == log;
    assert forall k | 0 <= k < |log| :: all[..k] == log[..k];
  }

  lemma StepKeepsInv(initial: State, s: System, step: Step)
    requires Inv(initial, s) && ResultsFit(initial, s.log) && Enabled(s, step)
    ensures Inv(initial, Apply(s, step)) && ResultsFit(initial, Apply(s, step).log)
  {
    if step.Advance? {
      var th := s.threads[step.thread];
      if th.pc.Releasing? {
        LogOneMore(initial, s.log, Entry(th.visible, th.o, th.pc.result));
      } else {
        assert s.log + [] == s.log;
        if Holds(th.pc) {
          MidwayStep(Replay(initial, s.log), th, s.native, s.flag, step.outcome);
        }
      }
    }
  }

  lemma {:induction false} RunKeepsInv(initial: State, s: System, steps: seq<Step>)
    requires Inv(initial, s) && ResultsFit(initial, s.log) && IsRun(s, steps)
    ensures Inv(initial, End(s, steps)) && ResultsFit(initial, End(s, steps).log)
    decreases |steps|
  {
    if steps != [] {
      StepKeepsInv(initial, s, steps[0]);
      RunKeepsInv(initial, Apply(s, steps[0]), steps[1..]);
    }
  }

  /**
   Every interleaving is a sequence of whole commits: with the lock free the state is what
   the logged commits make of the initial one, and each reported what it would have there.
   */
  lemma CommitsAreSerial(initial: State, steps: seq<Step>)
    requires IsRun(Start(initial), steps)
    ensures var s := End(Start(initial), steps);
            && (s.lock.None? ==> State(s.native, s.flag) == Replay(initial, s.log))
            && ResultsFit(initial, s.log)
  {
    RunKeepsInv(initial, Start(initial), steps);
  }

  lemma {:induction false} ReplayFlag(initial: State, log: seq<Entry>)
    requires ResultsFit(initial, log)
    ensures Replay(initial, log).flag == LastCommitted(initial.flag, log)
    ensures log != [] && Settled(log[|log| - 1].o) ==> Replay(initial, log).native == Both(Replay(initial, log).flag)
  {
    if log != [] {
      var before := log[..|log| - 1];
      forall k | 0 <= k < |before| ensures before[k].result == ResultOf(Replay(initial, before[..k]), before[k].o) {
        assert log[k] == before[k] && log[..k] == before[..k];
      }
      ReplayFlag(initial, before);
    }
  }

  /**
   With the lock free the flag is the last committed value; and after any commit that was
   accepted, or whose two restoring calls worked, both native halves agree with it,
   whatever earlier failures left behind.
   */
  lemma HalvesAndFlagAgree(initial: State, steps: seq<Step>)
    requires IsRun(Start(initial), steps) && End(Start(initial), steps).lock.None?
    ensures var s := End(Start(initial), steps);
            && s.flag == LastCommitted(initial.flag, s.log)
            && (s.log != [] && Settled(s.log[|s.log| - 1].o) ==> s.native == Both(s.flag))
  {
    CommitsAreSerial(initial, steps);
    ReplayFlag(initial, End(Start(initial), steps).log);
  }
}
