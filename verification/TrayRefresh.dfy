/**
 Coalescing of tray title updates: one flag, any number of callers, and workers that wait
 out a window, lower the flag and then update the titles.
 */
module TrayRefresh {

  /** The flag after a call, and whether the call starts a worker. */
  datatype Raised = Raised(flag: bool, starts: bool)

  /** `swap(true)`: only the caller that raises the flag starts a worker. */
  function Raise(flag: bool): Raised {
    Raised(true, !flag)
  }

  class RefreshFlag {
    var scheduled: bool

    constructor ()
      ensures !scheduled
    {
      scheduled := false;
    }

    method Schedule() returns (starts: bool)
      modifies this
      ensures Raised(scheduled, starts) == Raise(old(scheduled))
    {
      starts := !scheduled;
      scheduled := true;
    }
  }

  /** A worker sleeps with the flag raised; once it has lowered it, it updates the titles. */
  datatype Worker = Sleeping | Lowered(seen: nat) | Updated

  /**
   `requests` counts the calls so far; `covered` is how many of them were made before the
   latest update began to count them all; `updates` counts the updates begun.
   */
  datatype System = System(flag: bool, workers: seq<Worker>, requests: nat, covered: nat, updates: nat)

  datatype Step = Request | Lower(worker: nat) | Update(worker: nat)

  const START := System(false, [], 0, 0, 0)

  predicate Enabled(s: System, step: Step) {
    match step
    case Request => true
    case Lower(w) => w < |s.workers| && s.workers[w].Sleeping?
    case Update(w) => w < |s.workers| && s.workers[w].Lowered?
  }

  function Apply(s: System, step: Step): System
    requires Enabled(s, step)
  {
    match step
    case Request =>
      var raised := Raise(s.flag);
      s.(flag := raised.flag, requests := s.requests + 1,
         workers := s.workers + if raised.starts then [Sleeping] else [])
    case Lower(w) => s.(flag := false, workers := s.workers[w := Lowered(s.requests)])
    case Update(w) => s.(workers := s.workers[w := Updated], covered := s.requests, updates := s.updates + 1)
  }

  predicate IsRun(s: System, steps: seq<Step>)
    decreases |steps|
  {
    steps == [] || (Enabled(s, steps[0]) && IsRun(Apply(s, steps[0]), steps[1..]))
  }

  function Result(s: System, steps: seq<Step>): System
    requires IsRun(s, steps)
    decreases |steps|
  {
    if steps == [] then s else Result(Apply(s, steps[0]), steps[1..])
  }

  /** A worker that will begin an update after every request so far. */
  predicate WillCover(s: System, w: nat)
    requires w < |s.workers|
  {
    s.workers[w].Sleeping? || (s.workers[w].Lowered? && s.workers[w].seen == s.requests)
  }

  predicate IsPending(worker: Worker) {
    !worker.Updated?
  }

  function Pending(workers: seq<Worker>): nat {
    if workers == [] then 0
    else Pending(workers[..|workers| - 1]) + if IsPending(workers[|workers| - 1]) then 1 else 0
  }

  ghost predicate Inv(s: System) {
    && s.covered <= s.requests
    && (s.flag <==> exists w | 0 <= w < |s.workers| :: s.workers[w].Sleeping?)
    && (forall v, w | 0 <= v < w < |s.workers| :: !(s.workers[v].Sleeping? && s.workers[w].Sleeping?))
    && (s.covered == s.requests || exists w | 0 <= w < |s.workers| :: WillCover(s, w))
    && s.updates + Pending(s.workers) == |s.workers| <= s.requests
  }

  lemma {:induction false} OneLessPending(workers: seq<Worker>, w: nat, next: Worker)
    requires w < |workers| && IsPending(workers[w])
    ensures Pending(workers[w := next]) == Pending(workers) - if IsPending(next) then 0 else 1
  {
    var last := |workers| - 1;
    if w < last {
      OneLessPending(workers[..last], w, next);
      assert workers[w := next][..last] == workers[..last][w := next];
    } else {
      assert workers[w := next][..last] == workers[..last];
    }
  }

  lemma StepKeepsInv(s: System, step: Step)
    requires Inv(s) && Enabled(s, step)
    ensures Inv(Apply(s, step))
  {
    var t := Apply(s, step);
    match step
    case Request =>
      if s.flag {
        var w :| 0 <= w < |s.workers| && s.workers[w].Sleeping?;
        assert t.workers == s.workers && WillCover(t, w);
      } else {
        assert t.workers[..|s.workers|] == s.workers;
        assert t.workers[|s.workers|].Sleeping? && WillCover(t, |s.workers|);
      }
    case Lower(w) =>
      OneLessPending(s.workers, w, Lowered(s.requests));
      assert WillCover(t, w);
    case Update(w) =>
      OneLessPending(s.workers, w, Updated);
      if s.flag {
        var v :| 0 <= v < |s.workers| && s.workers[v].Sleeping?;
        assert t.workers[v].Sleeping?;
      }
  }

  lemma {:induction false} RunKeepsInv(s: System, steps: seq<Step>)
    requires Inv(s) && IsRun(s, steps)
    ensures Inv(Result(s, steps))
    decreases |steps|
  {
    if steps != [] {
      StepKeepsInv(s, steps[0]);
      RunKeepsInv(Apply(s, steps[0]), steps[1..]);
    }
  }

  lemma {:induction false} NonePending(workers: seq<Worker>)
    requires Pending(workers) == 0
    ensures forall w | 0 <= w < |workers| :: workers[w].Updated?
  {
    if workers != [] {
      NonePending(workers[..|workers| - 1]);
    }
  }

  /** At most one worker sleeps, and when none is pending every request is covered. */
  ghost predicate IsCoalesced(s: System) {
    && s.updates <= s.requests
    && (forall v, w | 0 <= v < w < |s.workers| :: !(s.workers[v].Sleeping? && s.workers[w].Sleeping?))
    && (Pending(s.workers) == 0 ==> s.covered == s.requests && !s.flag)
  }

  lemma InvMeansCoalesced(s: System)
    requires Inv(s)
    ensures IsCoalesced(s)
  {
    if Pending(s.workers) == 0 {
      NonePending(s.workers);
    }
  }

  /**
   No request is lost and none costs more than one update: when every started worker has
   updated, some update began after the last request, and there were no more updates than
   requests. At no time do two workers sleep.
   */
  lemma NoRequestIsLost(steps: seq<Step>)
    requires IsRun(START, steps)
    ensures IsCoalesced(Result(START, steps))
  {
    assert Inv(START);
    RunKeepsInv(START, steps);
    InvMeansCoalesced(Result(START, steps));
  }
}
