/**
 The debounce gate of usage events: any number of notifiers, and the worker that the
 gate admits. The class holds the gate's own methods; the system below interleaves them.
 */
module DebounceGate {

  datatype DebounceState = Idle | Scheduled | Running | RunningDirty

  /** What a transition leaves in the gate and what it answers. */
  datatype Transition = Transition(state: DebounceState, answer: bool)

  function Admit(s: DebounceState): Transition {
    match s
    case Idle => Transition(Scheduled, true)
    case Scheduled => Transition(Scheduled, false)
    case Running => Transition(RunningDirty, false)
    case RunningDirty => Transition(RunningDirty, false)
  }

  function Finish(s: DebounceState): Transition {
    match s
    case RunningDirty => Transition(Scheduled, true)
    case Running => Transition(Idle, false)
    case Idle => Transition(Idle, false)
    case Scheduled => Transition(Idle, false)
  }

  class Gate {
    var state: DebounceState

    constructor ()
      ensures state == Idle
    {
      state := Idle;
    }

    method TryAdmit() returns (admitted: bool)
      modifies this
      ensures Transition(state, admitted) == Admit(old(state))
    {
      match state {
        case Idle =>
          state := Scheduled;
          admitted := true;
        case Scheduled =>
          admitted := false;
        case RunningDirty =>
          admitted := false;
        case Running =>
          state := RunningDirty;
          admitted := false;
      }
    }

    /** `asserted` is whether the debug assertion holds. */
    method BeginAction() returns (asserted: bool)
      modifies this
      ensures state == Running && asserted == (old(state) == Scheduled)
    {
      asserted := state == Scheduled;
      state := Running;
    }

    method FinishAction() returns (again: bool, asserted: bool)
      modifies this
      ensures Transition(state, again) == Finish(old(state))
      ensures asserted == (old(state) == Running || old(state) == RunningDirty)
    {
      asserted := true;
      match state {
        case RunningDirty =>
          state := Scheduled;
          again := true;
        case Running =>
          state := Idle;
          again := false;
        case _ =>
          asserted := false;
          state := Idle;
          again := false;
      }
    }
  }

  /** How many actions run when `arrivals[k]` notifications come during the k-th one and none later. */
  function ActionsFor(arrivals: seq<nat>): (n: nat)
    ensures 1 <= n <= |arrivals| + 1
    ensures forall k | 0 <= k < n - 1 :: arrivals[k] > 0
    ensures n <= |arrivals| ==> arrivals[n - 1] == 0
  {
    if arrivals == [] || arrivals[0] == 0 then 1 else 1 + ActionsFor(arrivals[1..])
  }

  /** The worker's loop: wait, act, and act again if notified meanwhile. */
  method RunDebouncedAction(gate: Gate, arrivals: seq<nat>) returns (actions: nat)
    requires gate.state == Scheduled
    modifies gate
    ensures gate.state == Idle && actions == ActionsFor(arrivals)
  {
    actions := 0;
    while true
      invariant gate.state == Scheduled && actions <= |arrivals|
      invariant actions + ActionsFor(arrivals[actions..]) == ActionsFor(arrivals)
      decreases |arrivals| - actions
    {
      var began := gate.BeginAction();
      assert began;
      var during := if actions < |arrivals| then arrivals[actions] else 0;
      for i := 0 to during
        invariant gate.state == if i == 0 then Running else RunningDirty
      {
        var admitted := gate.TryAdmit();
        assert !admitted;
      }
      var again, asserted := gate.FinishAction();
      assert asserted;
      actions := actions + 1;
      if !again {
        break;
      }
      assert arrivals[actions - 1..][1..] == arrivals[actions..];
    }
  }

  // ---------- notifiers and workers interleaved ----------

  /** A worker is admitted, then spawned and waiting, then inside the action. */
  datatype Pc = Admitted | Waiting | Acting

  /**
   `notified` counts notifications and `starts` actions begun; `seen` is how many
   notifications there had been when the latest action began. `faults` counts debug
   assertions that failed.
   */
  datatype System = System(
    gate: DebounceState, workers: map<nat, Pc>, next: nat,
    notified: nat, starts: nat, seen: nat, faults: nat)

  const INITIAL := System(Idle, map[], 0, 0, 0, 0, 0)

  datatype Step = Notify | Spawn(worker: nat) | Begin(worker: nat) | End(worker: nat)

  predicate Enabled(s: System, step: Step) {
    match step
    case Notify => true
    case Spawn(w) => w in s.workers && s.workers[w] == Admitted
    case Begin(w) => w in s.workers && s.workers[w] == Waiting
    case End(w) => w in s.workers && s.workers[w] == Acting
  }

  function Apply(s: System, step: Step): System {
    match step
    case Notify =>
      var t := Admit(s.gate);
      var told := s.(gate := t.state, notified := s.notified + 1);
      if t.answer then told.(workers := s.workers[s.next := Admitted], next := s.next + 1) else told
    case Spawn(w) =>
      s.(workers := s.workers[w := Waiting])
    case Begin(w) =>
      s.(gate := Running, workers := s.workers[w := Acting], starts := s.starts + 1, seen := s.notified,
         faults := s.faults + if s.gate == Scheduled then 0 else 1)
    case End(w) =>
      var t := Finish(s.gate);
      s.(gate := t.state, workers := if t.answer then s.workers[w := Waiting] else s.workers - {w},
         faults := s.faults + if s.gate == Running || s.gate == RunningDirty then 0 else 1)
  }

  /** Every step is enabled in the state the earlier ones lead to. */
  predicate IsRun(s: System, steps: seq<Step>)
    decreases |steps|
  {
    steps == [] || (Enabled(s, steps[0]) && IsRun(Apply(s, steps[0]), steps[1..]))
  }

  function Result(s: System, steps: seq<Step>): System
    decreases |steps|
  {
    if steps == [] then s else Result(Apply(s, steps[0]), steps[1..])
  }

  /** The gate's state tells exactly which worker there is, where it is, and whether an action is owed. */
  ghost predicate Inv(s: System) {
    && s.faults == 0
    && s.starts <= s.seen <= s.notified
    && (forall w | w in s.workers :: w < s.next)
    && (match s.gate
        case Idle => s.workers == map[] && s.seen == s.notified
        case Scheduled =>
          s.seen < s.notified && exists w: nat, pc :: pc != Acting && s.workers == map[w := pc]
        case Running => s.seen == s.notified && exists w: nat :: s.workers == map[w := Acting]
        case RunningDirty => s.seen < s.notified && exists w: nat :: s.workers == map[w := Acting])
  }

  lemma StepKeepsInv(s: System, step: Step)
    requires Inv(s) && Enabled(s, step)
    ensures Inv(Apply(s, step))
  {
    var t := Apply(s, step);
    match step
    case Notify =>
      if s.gate == Idle {
        assert t.workers == map[s.next := Admitted];
      }
    case Spawn(w) => assert t.workers == map[w := Waiting];
    case Begin(w) => assert t.workers == map[w := Acting];
    case End(w) => assert t.workers == if s.gate == RunningDirty then map[w := Waiting] else map[];
  }

  lemma {:induction false} RunKeepsInv(s: System, steps: seq<Step>)
    requires Inv(s) && IsRun(s, steps)
    ensures Inv(Result(s, steps))
    decreases |steps|
  {
    if steps != [] {
      StepKeepsInv(s, steps[0]);
      RunKeepsInv(Apply(s, steps[0]), steps[1..]);
    }
  }

  ghost predicate Safe(s: System) {
    && |s.workers| <= 1
    && ((exists w :: w in s.workers && s.workers[w] == Acting) <==> s.gate == Running || s.gate == RunningDirty)
    && (s.gate == Idle <==> s.workers == map[])
    && s.faults == 0
    && (s.gate == Idle || s.gate == Running <==> s.seen == s.notified)
    && s.starts <= s.notified
  }

  /**
   Over every interleaving: at most one worker is live, it is inside the action exactly in
   the two running states, no debug assertion fails, every notification so far precedes
   the start of the latest action exactly when the gate is Idle or Running, and actions
   never outnumber notifications.
   */
  lemma EveryRunIsSafe(steps: seq<Step>)
    requires IsRun(INITIAL, steps)
    ensures Safe(Result(INITIAL, steps))
  {
    RunKeepsInv(INITIAL, steps);
    var s := Result(INITIAL, steps);
    if s.gate == Scheduled {
      var w: nat, pc :| pc != Acting && s.workers == map[w := pc];
      assert s.workers.Keys == {w};
    } else if s.gate != Idle {
      var w: nat :| s.workers == map[w := Acting];
      assert s.workers.Keys == {w} && s.workers[w] == Acting;
    }
  }

  // ---------- after the last notification ----------

  predicate Quiet(steps: seq<Step>) {
    forall i | 0 <= i < |steps| :: steps[i] != Notify
  }

  /** One further action is owed exactly when some notification came after the latest start. */
  function Owed(s: System): nat {
    if s.seen < s.notified then 1 else 0
  }

  /** How many steps the worker can still take on its own. */
  ghost function StepsLeft(s: System): nat {
    match s.gate
    case Idle => 0
    case Running => 1
    case Scheduled => if exists w :: w in s.workers && s.workers[w] == Admitted then 3 else 2
    case RunningDirty => 3
  }

  lemma QuietStep(s: System, step: Step)
    requires Inv(s) && Enabled(s, step) && step != Notify
    ensures var t := Apply(s, step);
            t.starts + Owed(t) == s.starts + Owed(s) && StepsLeft(t) == StepsLeft(s) - 1 && t.notified == s.notified
  {
    var t := Apply(s, step);
    match step
    case Spawn(w) => assert t.workers == map[w := Waiting];
    case Begin(w) => assert t.workers == map[w := Acting];
    case End(w) => assert s.gate == RunningDirty ==> t.workers == map[w := Waiting];
  }

  lemma LiveWorker(s: System) returns (w: nat)
    requires Inv(s) && s.gate != Idle
    ensures w in s.workers
  {
    if s.gate == Scheduled {
      var v: nat, pc :| pc != Acting && s.workers == map[v := pc];
      w := v;
    } else {
      var v: nat :| s.workers == map[v := Acting];
      w := v;
    }
  }

  lemma {:induction false} QuietRunsSettle(s: System, steps: seq<Step>)
    requires Inv(s) && IsRun(s, steps) && Quiet(steps)
    ensures var t := Result(s, steps);
            && |steps| + StepsLeft(t) == StepsLeft(s)
            && t.starts + Owed(t) == s.starts + Owed(s)
            && t.notified == s.notified
            && ((forall step :: Enabled(t, step) ==> step == Notify) ==>
                  t.gate == Idle && t.seen == t.notified && t.starts == s.starts + Owed(s))
    decreases |steps|
  {
    if steps == [] {
      if s.gate != Idle {
        var w := LiveWorker(s);
        assert Enabled(s, Spawn(w)) || Enabled(s, Begin(w)) || Enabled(s, End(w));
      }
    } else {
      StepKeepsInv(s, steps[0]);
      QuietStep(s, steps[0]);
      QuietRunsSettle(Apply(s, steps[0]), steps[1..]);
    }
  }

  /**
   After the last notification of any run: the worker can take only `StepsLeft` more steps,
   so it stops; at most one further action begins; and where it has stopped, the gate is
   Idle, the owed action has begun, and no notification came after the latest start.
   */
  lemma AfterTheLastNotification(before: seq<Step>, after: seq<Step>)
    requires IsRun(INITIAL, before) && IsRun(Result(INITIAL, before), after) && Quiet(after)
    ensures var s, t := Result(INITIAL, before), Result(Result(INITIAL, before), after);
            && |after| + StepsLeft(t) == StepsLeft(s)
            && s.starts <= t.starts <= s.starts + 1
            && t.notified == s.notified
            && ((forall step :: Enabled(t, step) ==> step == Notify) ==>
                  t.gate == Idle && t.seen == t.notified && t.starts == s.starts + Owed(s))
  {
    RunKeepsInv(INITIAL, before);
    QuietRunsSettle(Result(INITIAL, before), after);
    StartsOnlyGrow(Result(INITIAL, before), after);
  }

  lemma {:induction false} StartsOnlyGrow(s: System, steps: seq<Step>)
    requires IsRun(s, steps)
    ensures s.starts <= Result(s, steps).starts
    decreases |steps|
  {
    if steps != [] {
      StartsOnlyGrow(Apply(s, steps[0]), steps[1..]);
    }
  }
}
