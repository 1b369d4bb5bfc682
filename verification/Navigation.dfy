/**
 The hand-over of a navigation destination from the tray to the main window. The classes
 are the one-place destination slot and the acknowledgement slot. The system interleaves
 any number of openers with one renderer, which may come and go: the renderer drains the
 slot along a serialized chain into a React queue and acts on the head of the queue.
 */
module Navigation {
  import opened Text

  // ---------- the destination slot ----------

  /** The identity of one installation; two are the same only if they are one object. */
  class Marker {
    constructor () {
    }
  }

  datatype Entry<T> = Entry(marker: Marker, destination: T)

  /** A rollback empties the slot if the attempt is the one that filled it last. */
  function AfterRollback<M(==)>(pending: Option<M>, attempt: M): Option<M> {
    if pending == Some(attempt) then None else pending
  }

  class DestinationSlot<T> {
    var pending: Option<Entry<T>>

    constructor ()
      ensures pending == None
    {
      pending := None;
    }

    method Install(destination: T) returns (attempt: Marker)
      modifies this
      ensures fresh(attempt)
      ensures pending == Some(Entry(attempt, destination))
    {
      attempt := new Marker();
      pending := Some(Entry(attempt, destination));
    }

    /** Whose installation is pending. */
    function Filled(): Option<Marker>
      reads this
    {
      if pending.None? then None else Some(pending.value.marker)
    }

    /** Removes its own installation and never a later one. */
    method Rollback(attempt: Marker) returns (removed: bool)
      modifies this
      ensures Filled() == AfterRollback(old(Filled()), attempt)
      ensures removed <==> old(Filled()) == Some(attempt)
      ensures pending == if removed then None else old(pending)
    {
      removed := pending.Some? && pending.value.marker == attempt;
      if removed {
        pending := None;
      }
    }

    method Take() returns (destination: Option<T>)
      modifies this
      ensures pending == None
      ensures destination == match old(pending) case None => None case Some(entry) => Some(entry.destination)
    {
      destination := if pending.None? then None else Some(pending.value.destination);
      pending := None;
    }
  }

  // ---------- the acknowledgement slot ----------

  datatype Wait = Waiting | Acknowledged | Superseded | TimedOut

  /** What becomes of a wait; only one that is still waiting can end. */
  function Ends(wait: Wait, how: Wait): Wait {
    if wait == Waiting then how else wait
  }

  class Receiver {
    var wait: Wait

    constructor ()
      ensures wait == Waiting
    {
      wait := Waiting;
    }
  }

  class AckSlot {
    var sender: Option<Receiver>

    constructor ()
      ensures sender == None
    {
      sender := None;
    }

    /** Arming drops the earlier sender, which ends an earlier wait. */
    method Arm() returns (receiver: Receiver)
      modifies this, if sender.Some? then {sender.value} else {}
      ensures fresh(receiver) && receiver.wait == Waiting && sender == Some(receiver)
      ensures old(sender).Some? ==> old(sender).value.wait == Ends(old(sender.value.wait), Superseded)
    {
      if sender.Some? && sender.value.wait == Waiting {
        sender.value.wait := Superseded;
      }
      receiver := new Receiver();
      sender := Some(receiver);
    }

    /** Without a sender nothing happens, and nothing is kept for a later one. */
    method Acknowledge()
      modifies this, if sender.Some? then {sender.value} else {}
      ensures sender == None
      ensures old(sender).Some? ==> old(sender).value.wait == Ends(old(sender.value.wait), Acknowledged)
    {
      if sender.Some? {
        if sender.value.wait == Waiting {
          sender.value.wait := Acknowledged;
        }
        sender := None;
      }
    }
  }

  // ---------- the system ----------

  /** An opener from its installation on; opener i is the one that installed destination i. */
  datatype Phase = Installed | Armed | Revealing | Shown | Failed | Finished

  /** Live destinations are in the slot, in flight or queued. */
  datatype Fate = Live | ActedOn | Overwritten | RolledBack | Dropped

  datatype Update = Append(id: nat) | Remove(id: nat)

  /**
   `drains` counts the links of the drain chain that have not reached the slot yet; `taken`
   is what the current link took and has not handled. `view` is the last rendered queue,
   `updates` are the state updates since.
   */
  datatype Renderer = Renderer(
    mounted: bool,
    registered: bool,
    events: nat,
    drains: nat,
    taken: Option<Option<nat>>,
    view: seq<nat>,
    updates: seq<Update>,
    effectDue: bool)

  /** `frames` counts the acknowledgements on their way; a wait is known by its number. */
  datatype Acks = Acks(frames: nat, sender: Option<nat>, waits: seq<Wait>)

  /** `orphans` counts the chain links of unmounted renderers that have not reached the slot. */
  datatype System = System(
    slot: Option<nat>,
    phases: seq<Phase>,
    fates: seq<Fate>,
    acted: seq<nat>,
    window: bool,
    orphans: nat,
    ui: Renderer,
    acks: Acks)

  /**
   `Build` makes the window, at the start, when light mode is left or to show it. `Destroy`
   takes it away with everything in it, except commands that have been sent already:
   `takes` of the chain links and `frames` of the acknowledgements.
   */
  datatype Step =
    | Install
    | FindWindow(opener: nat)
    | ShowWindow(opener: nat, ok: bool)
    | RollBack(opener: nat)
    | Emit(opener: nat)
    | TimeOut(show: nat)
    | Acknowledge
    | Build
    | Destroy(takes: nat, frames: nat)
    | Mount
    | Register
    | Unmount
    | Hear
    | Take
    | Handle
    | OrphanTake
    | Render(callbacksChanged: bool)
    | RunEffect

  const UNMOUNTED := Renderer(false, false, 0, 0, None, [], [], false)

  const START := System(None, [], [], [], false, 0, UNMOUNTED, Acks(0, None, []))

  predicate Enabled(s: System, step: Step) {
    match step
    case Install => true
    case FindWindow(i) => i < |s.phases| && s.phases[i] == Installed
    case ShowWindow(i, _) => i < |s.phases| && s.phases[i] == Revealing
    case RollBack(i) => i < |s.phases| && s.phases[i] == Failed
    case Emit(i) => i < |s.phases| && (s.phases[i] == Armed || s.phases[i] == Shown)
    case TimeOut(w) => w < |s.acks.waits| && s.acks.waits[w] == Waiting
    case Acknowledge => s.acks.frames > 0
    case Build => !s.window
    case Destroy(takes, frames) => s.window && takes <= s.orphans + s.ui.drains && frames <= s.acks.frames
    case Mount => s.window && !s.ui.mounted
    case Register => s.ui.mounted && !s.ui.registered
    case Unmount => s.ui.mounted
    case Hear => s.ui.registered && s.ui.events > 0
    case Take => s.ui.mounted && s.ui.drains > 0 && s.ui.taken.None?
    case Handle => s.ui.mounted && s.ui.taken.Some?
    case OrphanTake => s.orphans > 0
    case Render(_) => s.ui.mounted && !s.ui.effectDue
    case RunEffect => s.ui.mounted && s.ui.effectDue
  }

  function SetFates(fates: seq<Fate>, ids: seq<nat>, fate: Fate): (r: seq<Fate>)
    ensures |r| == |fates|
    ensures forall i | 0 <= i < |fates| :: r[i] == if i in ids then fate else fates[i]
  {
    seq(|fates|, i requires 0 <= i < |fates| => if i in ids then fate else fates[i])
  }

  function AsSeq(id: Option<nat>): seq<nat> {
    if id.Some? then [id.value] else []
  }

  /** The ids the updates append, in order. */
  function Appended(updates: seq<Update>): seq<nat> {
    if updates == [] then [] else
      var last := updates[|updates| - 1];
      Appended(updates[..|updates| - 1]) + if last.Append? then [last.id] else []
  }

  function RemoveFirst(view: seq<nat>, id: nat): seq<nat> {
    if view == [] then [] else if view[0] == id then view[1..] else [view[0]] + RemoveFirst(view[1..], id)
  }

  function Updated(view: seq<nat>, updates: seq<Update>): seq<nat> {
    if updates == [] then view else
      var before := Updated(view, updates[..|updates| - 1]);
      match updates[|updates| - 1]
      case Append(id) => before + [id]
      case Remove(id) => RemoveFirst(before, id)
  }

  /** What waits to be acted on: a view whose effect has run lost its head. */
  function Queue(ui: Renderer): seq<nat> {
    (if ui.effectDue || ui.view == [] then ui.view else ui.view[1..]) + Appended(ui.updates)
  }

  function Flight(ui: Renderer): seq<nat> {
    if ui.taken.Some? then AsSeq(ui.taken.value) else []
  }

  /** In the renderer, oldest first. */
  function Inside(ui: Renderer): seq<nat> {
    Queue(ui) + Flight(ui)
  }

  /** A newer opening takes the acknowledgement slot over, which ends an earlier wait. */
  function Arm(acks: Acks): Acks {
    acks.(sender := Some(|acks.waits|), waits := Ended(acks.waits, acks.sender, Superseded) + [Waiting])
  }

  function Ended(waits: seq<Wait>, sender: Option<nat>, how: Wait): (r: seq<Wait>)
    ensures |r| == |waits|
  {
    if sender.Some? && sender.value < |waits| then waits[sender.value := Ends(waits[sender.value], how)] else waits
  }

  function Answered(acks: Acks): Acks
    requires acks.frames > 0
  {
    Acks(acks.frames - 1, None, Ended(acks.waits, acks.sender, Acknowledged))
  }

  /** A link of the chain that finds a destination queues it. */
  function HandleTaken(ui: Renderer): Renderer
    requires ui.taken.Some?
  {
    ui.(taken := None,
        updates := if ui.taken.value.Some? then ui.updates + [Append(ui.taken.value.value)] else ui.updates)
  }

  /** Every update makes a new array, so the effect is due; so does a changed callback. */
  function Rendered(ui: Renderer, callbacksChanged: bool): Renderer {
    ui.(view := Updated(ui.view, ui.updates), updates := [], effectDue := ui.updates != [] || callbacksChanged)
  }

  function AfterEffect(ui: Renderer): Renderer {
    ui.(effectDue := false, updates := if ui.view == [] then ui.updates else ui.updates + [Remove(ui.view[0])])
  }

  function Apply(s: System, step: Step): System
    requires Enabled(s, step)
  {
    match step
    case Install =>
      s.(slot := Some(|s.phases|), phases := s.phases + [Installed],
         fates := SetFates(s.fates, AsSeq(s.slot), Overwritten) + [Live])
    case FindWindow(i) =>
      if s.window
      then s.(phases := s.phases[i := Armed], acks := Arm(s.acks))
      else s.(phases := s.phases[i := Revealing])
    case ShowWindow(i, ok) =>
      s.(window := s.window || ok, phases := s.phases[i := if ok then Shown else Failed])
    case RollBack(i) =>
      s.(phases := s.phases[i := Finished], slot := AfterRollback(s.slot, i),
         fates := if s.slot == Some(i) then SetFates(s.fates, [i], RolledBack) else s.fates)
    case Emit(i) =>
      s.(phases := s.phases[i := Finished], ui := s.ui.(events := s.ui.events + if s.ui.registered then 1 else 0))
    case TimeOut(w) => s.(acks := s.acks.(waits := s.acks.waits[w := TimedOut]))
    case Acknowledge => s.(acks := Answered(s.acks))
    case Build => s.(window := true)
    case Destroy(takes, frames) =>
      s.(window := false, ui := UNMOUNTED, orphans := takes, acks := s.acks.(frames := frames),
         fates := SetFates(s.fates, Inside(s.ui), Dropped))
    case Mount => s.(ui := UNMOUNTED.(mounted := true, drains := 1))
    case Register => s.(ui := s.ui.(registered := true))
    case Unmount =>
      s.(ui := UNMOUNTED, orphans := s.orphans + s.ui.drains,
         fates := SetFates(s.fates, Inside(s.ui), Dropped))
    case Hear => s.(ui := s.ui.(events := s.ui.events - 1, drains := s.ui.drains + 1))
    case Take => s.(ui := s.ui.(drains := s.ui.drains - 1, taken := Some(s.slot)), slot := None)
    case Handle => s.(ui := HandleTaken(s.ui))
    case OrphanTake =>
      s.(orphans := s.orphans - 1, slot := None, fates := SetFates(s.fates, AsSeq(s.slot), Dropped))
    case Render(callbacksChanged) => s.(ui := Rendered(s.ui, callbacksChanged))
    case RunEffect =>
      if s.ui.view == [] then s.(ui := AfterEffect(s.ui)) else
        s.(ui := AfterEffect(s.ui),
           acted := s.acted + [s.ui.view[0]],
           fates := SetFates(s.fates, [s.ui.view[0]], ActedOn),
           acks := s.acks.(frames := s.acks.frames + if |s.ui.view| == 1 then 1 else 0))
  }

  predicate IsRun(s: System, steps: seq<Step>)
    decreases |steps|
  {
    steps == [] || (Enabled(s, steps[0]) && IsRun(Apply(s, steps[0]), steps[1..]))
  }

  function Result(s: System, steps: seq<Step>): System
    requires IsRun(s, steps)
    decreases |steps|
  {
    if steps == [] then s else Result(Apply(s, steps[0]), steps[1..])
  }

  // ---------- the queue ----------

  predicate NoRemoves(updates: seq<Update>) {
    forall k | 0 <= k < |updates| :: updates[k].Append?
  }

  predicate OneRemove(updates: seq<Update>, head: nat) {
    updates != [] &&
    var last, before := updates[|updates| - 1], updates[..|updates| - 1];
    (last == Remove(head) && NoRemoves(before)) || (last.Append? && OneRemove(before, head))
  }

  /** The effect of a rendered view runs once and queues one removal, of the head. */
  ghost predicate QueueShape(ui: Renderer) {
    && (ui.effectDue || ui.view == [] ==> NoRemoves(ui.updates))
    && (!ui.effectDue && ui.view != [] ==> OneRemove(ui.updates, ui.view[0]))
    && (!ui.mounted ==> ui == UNMOUNTED)
  }

  lemma {:induction false} UpdatedByAppends(view: seq<nat>, updates: seq<Update>)
    requires NoRemoves(updates)
    ensures Updated(view, updates) == view + Appended(updates)
    decreases |updates|
  {
    if updates != [] {
      UpdatedByAppends(view, updates[..|updates| - 1]);
    }
  }

  lemma {:induction false} UpdatedByOneRemove(view: seq<nat>, updates: seq<Update>)
    requires view != [] && OneRemove(updates, view[0])
    ensures Updated(view, updates) == view[1..] + Appended(updates)
    decreases |updates|
  {
    var before := updates[..|updates| - 1];
    if updates[|updates| - 1].Append? {
      UpdatedByOneRemove(view, before);
    } else {
      UpdatedByAppends(view, before);
    }
  }

  lemma OneMoreAppend(updates: seq<Update>, id: nat)
    ensures Appended(updates + [Append(id)]) == Appended(updates) + [id]
    ensures NoRemoves(updates) ==> NoRemoves(updates + [Append(id)])
  {
    assert (updates + [Append(id)])[..|updates|] == updates;
  }

  lemma AppendAfterRemove(updates: seq<Update>, id: nat, head: nat)
    requires OneRemove(updates, head)
    ensures OneRemove(updates + [Append(id)], head)
  {
    assert (updates + [Append(id)])[..|updates|] == updates;
  }

  lemma OneMoreRemove(updates: seq<Update>, head: nat)
    requires NoRemoves(updates)
    ensures Appended(updates + [Remove(head)]) == Appended(updates)
    ensures OneRemove(updates + [Remove(head)], head)
  {
    assert (updates + [Remove(head)])[..|updates|] == updates;
  }

  lemma RenderKeepsQueue(ui: Renderer, callbacksChanged: bool)
    requires QueueShape(ui) && !ui.effectDue
    ensures QueueShape(Rendered(ui, callbacksChanged)) || !ui.mounted
    ensures Queue(Rendered(ui, callbacksChanged)) == Queue(ui)
  {
    if ui.view == [] {
      UpdatedByAppends(ui.view, ui.updates);
    } else {
      UpdatedByOneRemove(ui.view, ui.updates);
    }
    assert Updated(ui.view, ui.updates) == Queue(ui);
  }

  lemma HandleKeepsShape(ui: Renderer)
    requires QueueShape(ui) && ui.taken.Some?
    ensures QueueShape(HandleTaken(ui)) || !ui.mounted
  {
    if ui.taken.value.Some? {
      OneMoreAppend(ui.updates, ui.taken.value.value);
      if !ui.effectDue && ui.view != [] {
        AppendAfterRemove(ui.updates, ui.taken.value.value, ui.view[0]);
      }
    }
  }

  lemma HandleMovesFlight(ui: Renderer)
    requires ui.taken.Some?
    ensures Queue(HandleTaken(ui)) == Queue(ui) + Flight(ui) && Flight(HandleTaken(ui)) == []
  {
    if ui.taken.value.Some? {
      OneMoreAppend(ui.updates, ui.taken.value.value);
      var left := if ui.effectDue || ui.view == [] then ui.view else ui.view[1..];
      ConcatAssociates(left, Appended(ui.updates), [ui.taken.value.value]);
    } else {
      NothingAfter(Queue(ui));
    }
  }

  lemma EffectDropsHead(ui: Renderer)
    requires QueueShape(ui) && ui.effectDue && ui.mounted
    ensures QueueShape(AfterEffect(ui)) && Flight(AfterEffect(ui)) == Flight(ui)
    ensures Queue(ui) == (if ui.view == [] then [] else [ui.view[0]]) + Queue(AfterEffect(ui))
  {
    if ui.view != [] {
      OneMoreRemove(ui.updates, ui.view[0]);
    }
  }

  lemma StepKeepsQueueShape(s: System, step: Step)
    requires QueueShape(s.ui) && Enabled(s, step)
    ensures QueueShape(Apply(s, step).ui)
  {
    match step
    case Handle => HandleKeepsShape(s.ui);
    case RunEffect => EffectDropsHead(s.ui);
    case Render(callbacksChanged) => RenderKeepsQueue(s.ui, callbacksChanged);
    case _ =>
  }

  // ---------- order ----------

  predicate Increasing(ids: seq<nat>) {
    forall i, j | 0 <= i < j < |ids| :: ids[i] < ids[j]
  }

  predicate Below(ids: seq<nat>, bound: nat) {
    forall i | 0 <= i < |ids| :: ids[i] < bound
  }

  /** Every destination acted on or still live, oldest first. */
  function Line(s: System): seq<nat> {
    s.acted + (Inside(s.ui) + AsSeq(s.slot))
  }

  ghost predicate Ordered(s: System) {
    Increasing(Line(s)) && Below(Line(s), |s.phases|)
  }

  /** Dropping a part keeps the order, and so does adding a larger id at the end. */
  lemma PartsInOrder(a: seq<nat>, b: seq<nat>, c: seq<nat>, bound: nat)
    requires Increasing(a + (b + c)) && Below(a + (b + c), bound)
    ensures Increasing(a + (b + [])) && Below(a + (b + []), bound)
    ensures Increasing(a + ([] + c)) && Below(a + ([] + c), bound)
    ensures Increasing(a + (b + [bound])) && Below(a + (b + [bound]), bound + 1)
  {
    var all := a + (b + c);
    assert forall i | 0 <= i < |a| + |b| :: (a + (b + []))[i] == all[i] && (a + (b + [bound]))[i] == all[i];
    assert forall i | 0 <= i < |a| :: (a + ([] + c))[i] == all[i];
    assert forall k | |a| <= k < |a| + |c| :: (a + ([] + c))[k] == all[k + |b|];
  }

  lemma TakeKeepsLine(acted: seq<nat>, queue: seq<nat>, slot: seq<nat>)
    ensures acted + (queue + [] + slot) == acted + (queue + slot + [])
  {
  }

  lemma HandleKeepsLine(acted: seq<nat>, queue: seq<nat>, flight: seq<nat>, slot: seq<nat>)
    ensures acted + (queue + flight + slot) == acted + (queue + flight + [] + slot)
  {
  }

  lemma EffectKeepsLine(acted: seq<nat>, head: nat, queue: seq<nat>, flight: seq<nat>, slot: seq<nat>)
    ensures acted + ([head] + queue + flight + slot) == acted + [head] + (queue + flight + slot)
  {
  }

  /** The renderer goes, alone or with its window. */
  predicate Leaves(step: Step) {
    step.Unmount? || step.Destroy?
  }

  predicate InRenderer(step: Step) {
    step.Take? || step.Handle? || step.Render? || step.RunEffect?
  }

  /** Steps of the renderer move ids along without reordering them. */
  lemma RendererKeepsLine(s: System, step: Step)
    requires QueueShape(s.ui) && Enabled(s, step) && InRenderer(step)
    ensures Line(Apply(s, step)) == Line(s)
  {
    match step
    case Take => TakeKeepsLine(s.acted, Queue(s.ui), AsSeq(s.slot));
    case Handle =>
      HandleMovesFlight(s.ui);
      HandleKeepsLine(s.acted, Queue(s.ui), Flight(s.ui), AsSeq(s.slot));
    case Render(callbacksChanged) => RenderKeepsQueue(s.ui, callbacksChanged);
    case RunEffect =>
      EffectDropsHead(s.ui);
      if s.ui.view != [] {
        EffectKeepsLine(s.acted, s.ui.view[0], Queue(AfterEffect(s.ui)), Flight(s.ui), AsSeq(s.slot));
      } else {
        NothingBefore(Queue(AfterEffect(s.ui)));
      }
  }

  lemma StepKeepsOrder(s: System, step: Step)
    requires QueueShape(s.ui) && Ordered(s) && Enabled(s, step)
    ensures Ordered(Apply(s, step))
  {
    if InRenderer(step) {
      RendererKeepsLine(s, step);
    } else {
      PartsInOrder(s.acted, Inside(s.ui), AsSeq(s.slot), |s.phases|);
      OthersKeepOrder(s, step);
    }
  }

  lemma OthersKeepOrder(s: System, step: Step)
    requires QueueShape(s.ui) && Ordered(s) && Enabled(s, step) && !InRenderer(step)
    requires Increasing(s.acted + (Inside(s.ui) + [])) && Below(s.acted + (Inside(s.ui) + []), |s.phases|)
    requires Increasing(s.acted + ([] + AsSeq(s.slot))) && Below(s.acted + ([] + AsSeq(s.slot)), |s.phases|)
    requires var next := s.acted + (Inside(s.ui) + [|s.phases|]); Increasing(next) && Below(next, |s.phases| + 1)
    ensures Ordered(Apply(s, step))
  {
    var t := Apply(s, step);
    if Leaves(step) || step.Mount? {
      assert Inside(t.ui) == [];
    } else {
      assert Inside(t.ui) == Inside(s.ui);
    }
  }

  // ---------- fates ----------

  ghost predicate FatesTold(s: System) {
    && |s.fates| == |s.phases|
    && (forall i | 0 <= i < |s.fates| :: s.fates[i] == ActedOn <==> i in s.acted)
    && (forall i | 0 <= i < |s.fates| :: s.fates[i] == Live <==> i in Inside(s.ui) + AsSeq(s.slot))
  }

  lemma Before(a: seq<nat>, b: seq<nat>, x: nat, y: nat)
    requires Increasing(a + b) && x in a && y in b
    ensures x < y
  {
    var i :| 0 <= i < |a| && a[i] == x;
    var j :| 0 <= j < |b| && b[j] == y;
    assert (a + b)[i] == x && (a + b)[|a| + j] == y;
  }

  lemma Tail(a: seq<nat>, b: seq<nat>)
    requires Increasing(a + b)
    ensures Increasing(a) && Increasing(b)
  {
    assert forall i | 0 <= i < |a| :: (a + b)[i] == a[i];
    assert forall i | 0 <= i < |b| :: (a + b)[|a| + i] == b[i];
  }

  /** An id is in one place only. */
  ghost predicate Apart(s: System) {
    && (forall id | id in s.acted :: id !in Inside(s.ui) && id !in AsSeq(s.slot))
    && (forall id | id in Inside(s.ui) :: id !in AsSeq(s.slot))
    && (forall id | id in Line(s) :: id < |s.phases|)
  }

  lemma OrderedIsApart(s: System)
    requires Ordered(s)
    ensures Apart(s)
  {
    var inside, slot := Inside(s.ui), AsSeq(s.slot);
    Tail(s.acted, inside + slot);
    forall x, y | x in s.acted && (y in inside || y in slot) ensures x < y {
      Before(s.acted, inside + slot, x, y);
    }
    forall x, y | x in inside && y in slot ensures x < y {
      Before(inside, slot, x, y);
    }
    forall id | id in Line(s) ensures id < |s.phases| {
      var i :| 0 <= i < |Line(s)| && Line(s)[i] == id;
    }
  }

  lemma StepKeepsFates(s: System, step: Step)
    requires QueueShape(s.ui) && Ordered(s) && FatesTold(s) && Enabled(s, step)
    ensures FatesTold(Apply(s, step))
  {
    StepKeepsOrder(s, step);
    OrderedIsApart(s);
    OrderedIsApart(Apply(s, step));
    if InRenderer(step) {
      RendererTellsFates(s, step);
    } else {
      OthersTellFates(s, step);
    }
  }

  lemma RendererTellsFates(s: System, step: Step)
    requires QueueShape(s.ui) && FatesTold(s) && Enabled(s, step) && InRenderer(step)
    requires Apart(s) && Apart(Apply(s, step))
    ensures FatesTold(Apply(s, step))
  {
    match step
    case Take => assert Queue(Apply(s, step).ui) == Queue(s.ui);
    case Handle => HandleMovesFlight(s.ui);
    case Render(callbacksChanged) => RenderKeepsQueue(s.ui, callbacksChanged);
    case RunEffect => EffectDropsHead(s.ui);
  }

  lemma OthersTellFates(s: System, step: Step)
    requires QueueShape(s.ui) && FatesTold(s) && Enabled(s, step) && !InRenderer(step)
    requires Apart(s)
    ensures FatesTold(Apply(s, step))
  {
    var t := Apply(s, step);
    if step.Install? || step.RollBack? || step.OrphanTake? {
      SlotChangeTellsFates(s, step);
    } else if Leaves(step) {
      assert Inside(t.ui) == [];
    } else if step.Mount? {
      assert Inside(t.ui) == [] && Inside(s.ui) == [];
    } else {
      assert Inside(t.ui) == Inside(s.ui);
    }
  }

  lemma SlotChangeTellsFates(s: System, step: Step)
    requires FatesTold(s) && Enabled(s, step) && Apart(s)
    requires step.Install? || step.RollBack? || step.OrphanTake?
    ensures FatesTold(Apply(s, step))
  {
    var t := Apply(s, step);
    NewIsNowhere(s);
    forall i | 0 <= i < |t.fates|
      ensures t.fates[i] == ActedOn <==> i in t.acted
      ensures t.fates[i] == Live <==> i in Inside(t.ui) + AsSeq(t.slot)
    {
    }
  }

  lemma NewIsNowhere(s: System)
    requires Apart(s)
    ensures |s.phases| !in s.acted && |s.phases| !in Inside(s.ui)
  {
    assert |s.phases| !in Line(s);
  }

  // ---------- over whole runs ----------

  ghost predicate Inv(s: System) {
    QueueShape(s.ui) && Ordered(s) && FatesTold(s)
  }

  lemma StepKeepsInv(s: System, step: Step)
    requires Inv(s) && Enabled(s, step)
    ensures Apart(s) && Inv(Apply(s, step)) && Apart(Apply(s, step))
  {
    StepKeepsQueueShape(s, step);
    StepKeepsOrder(s, step);
    StepKeepsFates(s, step);
    OrderedIsApart(s);
    OrderedIsApart(Apply(s, step));
  }

  lemma {:induction false} RunKeepsInv(s: System, steps: seq<Step>)
    requires Inv(s) && IsRun(s, steps)
    ensures Inv(Result(s, steps))
    decreases |steps|
  {
    if steps != [] {
      StepKeepsInv(s, steps[0]);
      RunKeepsInv(Apply(s, steps[0]), steps[1..]);
    }
  }

  ghost predicate Reachable(s: System) {
    exists steps :: IsRun(START, steps) && Result(START, steps) == s
  }

  lemma ReachableIsInv(s: System)
    requires Reachable(s)
    ensures Inv(s) && Apart(s)
  {
    var steps :| IsRun(START, steps) && Result(START, steps) == s;
    RunKeepsInv(START, steps);
    OrderedIsApart(s);
  }

  predicate Skipped(fate: Fate) {
    fate.Overwritten? || fate.RolledBack? || fate.Dropped?
  }

  /**
   What the renderer acts on is a subsequence of what was installed: in order, each at
   most once. Whatever it passed over was overwritten, rolled back or dropped.
   */
  lemma ActedInOrder(s: System)
    requires Reachable(s)
    ensures Increasing(s.acted) && Below(s.acted, |s.phases|)
    ensures |s.fates| == |s.phases|
    ensures forall a, i: nat | a in s.acted && i < a && i !in s.acted :: i < |s.fates| && Skipped(s.fates[i])
  {
    ReachableIsInv(s);
    var waiting := Inside(s.ui) + AsSeq(s.slot);
    Tail(s.acted, waiting);
    forall k | 0 <= k < |s.acted| ensures s.acted[k] < |s.phases| {
      assert s.acted[k] in Line(s);
    }
    forall a, i: nat | a in s.acted && i < a && i !in s.acted ensures i < |s.fates| && Skipped(s.fates[i]) {
      if i in waiting {
        Before(s.acted, waiting, a, i);
      }
    }
  }

  /**
   A destination leaves the live state once, and for exactly one reason: a newer
   installation while it is in the slot, the rollback of its own opener while it is in the
   slot, being acted on at the head of the queue, or being dropped, which is to say taken
   by the left-over drain of a renderer that has gone, or held by one that goes.
   */
  lemma OneFate(s: System, step: Step, i: nat)
    requires Reachable(s) && Enabled(s, step) && i < |s.fates|
    ensures |Apply(s, step).fates| >= |s.fates|
    ensures s.fates[i] != Live ==> Apply(s, step).fates[i] == s.fates[i]
    ensures s.fates[i] == Live ==>
              var fate := Apply(s, step).fates[i];
              && (fate == Overwritten <==> step.Install? && s.slot == Some(i))
              && (fate == RolledBack <==> step == RollBack(i) && s.slot == Some(i))
              && (fate == Dropped <==>
                   (step.OrphanTake? && s.slot == Some(i)) || (Leaves(step) && i in Inside(s.ui)))
              && (fate == ActedOn <==> step.RunEffect? && s.ui.view != [] && s.ui.view[0] == i)
  {
    ReachableIsInv(s);
    if step.RunEffect? && s.ui.view != [] {
      assert s.ui.view[0] in Queue(s.ui);
    }
  }

  // ---------- dropped destinations ----------

  /** A renderer goes while it holds a destination, or one that has gone takes one. */
  predicate Drops(s: System, step: Step) {
    (step.OrphanTake? && s.slot.Some?) || (Leaves(step) && Inside(s.ui) != [])
  }

  predicate NeverDrops(s: System, steps: seq<Step>)
    requires IsRun(s, steps)
    decreases |steps|
  {
    steps == [] || (!Drops(s, steps[0]) && NeverDrops(Apply(s, steps[0]), steps[1..]))
  }

  predicate NoneDropped(fates: seq<Fate>) {
    forall i | 0 <= i < |fates| :: fates[i] != Dropped
  }

  /** Some live destination is dropped. */
  lemma StepDrops(s: System, step: Step)
    requires Inv(s) && Apart(s) && Enabled(s, step) && Drops(s, step)
    ensures !NoneDropped(Apply(s, step).fates)
  {
    var id := if step.OrphanTake? then s.slot.value else Inside(s.ui)[0];
    assert id in Inside(s.ui) + AsSeq(s.slot);
    assert id in Line(s);
    assert Apply(s, step).fates[id] == Dropped;
  }

  lemma StepKeepsDropped(s: System, step: Step)
    requires Inv(s) && Apart(s) && Enabled(s, step) && !Drops(s, step)
    ensures NoneDropped(Apply(s, step).fates) <==> NoneDropped(s.fates)
  {
    var t := Apply(s, step);
    if step.RunEffect? && s.ui.view != [] {
      assert s.ui.view[0] in Queue(s.ui);
    }
    if i :| 0 <= i < |s.fates| && s.fates[i] == Dropped {
      assert t.fates[i] == Dropped;
    }
  }

  lemma {:induction false} DropsAreExact(s: System, steps: seq<Step>)
    requires Inv(s) && IsRun(s, steps)
    ensures NoneDropped(Result(s, steps).fates) <==> NoneDropped(s.fates) && NeverDrops(s, steps)
    decreases |steps|
  {
    if steps != [] {
      StepKeepsInv(s, steps[0]);
      if Drops(s, steps[0]) {
        StepDrops(s, steps[0]);
      } else {
        StepKeepsDropped(s, steps[0]);
      }
      DropsAreExact(Apply(s, steps[0]), steps[1..]);
    }
  }

  /**
   Every destination that is skipped was overwritten, or rolled back by its own opener, if
   and only if no step of the run drops one.
   */
  lemma OnlyOpenersSkip(steps: seq<Step>)
    requires IsRun(START, steps)
    ensures var fates := Result(START, steps).fates;
            (forall i | 0 <= i < |fates| :: Skipped(fates[i]) ==> fates[i] == Overwritten || fates[i] == RolledBack)
            <==> NeverDrops(START, steps)
  {
    DropsAreExact(START, steps);
  }

  /** In particular when no renderer ever goes. */
  lemma {:induction false} WithoutUnmountNothingDrops(s: System, steps: seq<Step>)
    requires s.orphans == 0 && IsRun(s, steps)
    requires forall k | 0 <= k < |steps| :: !Leaves(steps[k])
    ensures NeverDrops(s, steps)
    decreases |steps|
  {
    if steps != [] {
      assert !Leaves(steps[0]);
      WithoutUnmountNothingDrops(Apply(s, steps[0]), steps[1..]);
    }
  }

  /** A renderer that goes before its first drain leaves a link that takes, and drops, what it finds. */
  lemma AnUntakenDestinationCanDrop() returns (s: System)
    ensures Reachable(s) && s.fates == [Dropped] && s.acted == []
  {
    assert IsRun(START, []) && Result(START, []) == START;
    var s1 := Apply(START, Install);
    ReachOne(START, Install);
    var s2 := Apply(s1, FindWindow(0));
    ReachOne(s1, FindWindow(0));
    var s3 := Apply(s2, ShowWindow(0, true));
    ReachOne(s2, ShowWindow(0, true));
    var s4 := Apply(s3, Mount);
    ReachOne(s3, Mount);
    var s5 := Apply(s4, Unmount);
    ReachOne(s4, Unmount);
    s := Apply(s5, OrphanTake);
    ReachOne(s5, OrphanTake);
  }

  /** One that goes after its drain has taken drops what it took. */
  lemma ATakenDestinationCanDrop() returns (s: System)
    ensures Reachable(s) && s.fates == [Dropped] && s.acted == []
  {
    var s0 := FirstTaken();
    assert Inside(s0.ui) == [0];
    s := Apply(s0, Unmount);
    ReachOne(s0, Unmount);
  }

  // ---------- delivery ----------

  /** An event or a drain that will still empty the slot. */
  predicate TakePending(ui: Renderer) {
    ui.events > 0 || ui.drains > 0
  }

  /** The opener of the destination in the slot has nothing left to do. */
  predicate SlotIsSettled(s: System) {
    s.slot.Some? && s.slot.value < |s.phases| && s.phases[s.slot.value] == Finished
  }

  /** What waits in the slot of a mounted renderer is still being opened or will be taken. */
  predicate Delivering(s: System) {
    s.ui.mounted && SlotIsSettled(s) ==> TakePending(s.ui)
  }

  /** The emission reaches the listener, or does not matter to the slot. */
  predicate Heard(s: System, i: nat) {
    s.ui.registered || !s.ui.mounted || s.slot != Some(i) || TakePending(s.ui)
  }

  /**
   Delivery fails exactly when the event of the destination in the slot is emitted to a
   mounted renderer whose listener is not registered yet and whose drains have all taken.
   */
  lemma DeliveryBreaksExactly(s: System, step: Step)
    requires Reachable(s) && Delivering(s) && Enabled(s, step)
    ensures !Delivering(Apply(s, step)) <==> step.Emit? && !Heard(s, step.opener)
  {
  }

  lemma SlotIsBelow(s: System)
    requires Apart(s)
    ensures s.slot.Some? ==> s.slot.value < |s.phases|
  {
    assert s.slot.Some? ==> s.slot.value in AsSeq(s.slot) && s.slot.value in Line(s);
  }

  predicate AllHeard(s: System, steps: seq<Step>)
    requires IsRun(s, steps)
    decreases |steps|
  {
    steps == [] || ((steps[0].Emit? ==> Heard(s, steps[0].opener)) && AllHeard(Apply(s, steps[0]), steps[1..]))
  }

  lemma ReachOne(s: System, step: Step)
    requires Reachable(s) && Enabled(s, step)
    ensures Reachable(Apply(s, step))
  {
    var steps :| IsRun(START, steps) && Result(START, steps) == s;
    RunThenStep(START, steps, step);
  }

  lemma {:induction false} RunThenStep(s: System, steps: seq<Step>, step: Step)
    requires IsRun(s, steps) && Enabled(Result(s, steps), step)
    ensures IsRun(s, steps + [step])
    ensures Result(s, steps + [step]) == Apply(Result(s, steps), step)
    decreases |steps|
  {
    if steps == [] {
      assert steps + [step] == [step] && [step][1..] == [];
    } else {
      RunThenStep(Apply(s, steps[0]), steps[1..], step);
      assert (steps + [step])[1..] == steps[1..] + [step];
    }
  }

  lemma {:induction false} HeardRunsDeliver(s: System, steps: seq<Step>)
    requires Reachable(s) && Delivering(s) && IsRun(s, steps) && AllHeard(s, steps)
    ensures Reachable(Result(s, steps)) && Delivering(Result(s, steps))
    decreases |steps|
  {
    if steps != [] {
      DeliveryBreaksExactly(s, steps[0]);
      ReachOne(s, steps[0]);
      HeardRunsDeliver(Apply(s, steps[0]), steps[1..]);
    }
  }

  /** Nothing is left to do but open another destination or take the renderer away. */
  predicate Quiet(s: System) {
    && s.ui.mounted
    && (forall i | 0 <= i < |s.phases| :: s.phases[i] == Finished)
    && !TakePending(s.ui) && s.ui.taken.None? && s.ui.updates == [] && !s.ui.effectDue
  }

  /**
   When a run in which every emission was heard falls quiet, every destination was acted
   on, unless it was overwritten, rolled back or dropped.
   */
  lemma QuietMeansDelivered(steps: seq<Step>)
    requires IsRun(START, steps) && AllHeard(START, steps) && Quiet(Result(START, steps))
    ensures var s := Result(START, steps);
            && |s.fates| == |s.phases|
            && forall i | 0 <= i < |s.fates| :: i in s.acted || Skipped(s.fates[i])
  {
    assert IsRun(START, []) && Result(START, []) == START;
    HeardRunsDeliver(START, steps);
    var s := Result(START, steps);
    ReachableIsInv(s);
    SlotIsBelow(s);
    assert s.slot.None?;
    assert Inside(s.ui) + AsSeq(s.slot) == [];
  }

  // ---------- acknowledgements ----------

  ghost predicate AckInv(acks: Acks) {
    && (acks.sender.Some? ==> acks.sender.value + 1 == |acks.waits|)
    && (forall r | 0 <= r < |acks.waits| && acks.waits[r] == Waiting :: acks.sender == Some(r))
  }

  lemma StepKeepsAckInv(s: System, step: Step)
    requires AckInv(s.acks) && Enabled(s, step)
    ensures AckInv(Apply(s, step).acks)
  {
  }

  lemma {:induction false} RunKeepsAckInv(s: System, steps: seq<Step>)
    requires AckInv(s.acks) && IsRun(s, steps)
    ensures AckInv(Result(s, steps).acks)
    decreases |steps|
  {
    if steps != [] {
      StepKeepsAckInv(s, steps[0]);
      RunKeepsAckInv(Apply(s, steps[0]), steps[1..]);
    }
  }

  /**
   Only an acknowledgement turns a wait into an acknowledged one, and only the latest; an
   acknowledgement that finds no sender leaves no trace but the frame it used up, and a new
   wait always starts unanswered, with every earlier one over.
   */
  lemma AcknowledgesOnlyTheLatest(s: System, step: Step, r: nat)
    requires Reachable(s) && Enabled(s, step) && r < |s.acks.waits|
    ensures var before, after := s.acks, Apply(s, step).acks;
            && |after.waits| >= |before.waits|
            && (after.waits[r] == Acknowledged && before.waits[r] != Acknowledged ==>
                 step == Acknowledge && before.waits[r] == Waiting && r == |before.waits| - 1)
            && (step == Acknowledge ==> after.sender == None && after.frames == before.frames - 1)
            && (step == Acknowledge && before.sender.None? ==> after.waits == before.waits)
            && (|after.waits| > |before.waits| ==> after.waits[|before.waits|] == Waiting && after.waits[r] != Waiting)
  {
    var steps :| IsRun(START, steps) && Result(START, steps) == s;
    RunKeepsAckInv(START, steps);
  }

  /** Every wait ends at most once, and how it ended tells what ended it. */
  lemma WaitsEndOnce(s: System, step: Step, r: nat)
    requires Enabled(s, step) && r < |s.acks.waits|
    ensures var before, after := s.acks.waits[r], Apply(s, step).acks.waits[r];
            after != before ==>
              && before == Waiting
              && (after == Acknowledged <==> step == Acknowledge)
              && (after == Superseded <==> step.FindWindow?)
              && (after == TimedOut <==> step == TimeOut(r))
  {
  }

  // ---------- early acknowledgements ----------

  /**
   An earlier destination can still be acted on in a view of its own, which is what sends a
   frame, while `i` is live. If `i` waits in the slot, any destination in the renderer can;
   if it is in flight, any queued one; once it is queued, only one whose view has no other
   and is due, because later views hold `i` as well.
   */
  predicate EarlierAlone(slot: Option<nat>, ui: Renderer, i: nat) {
    if slot == Some(i) then Inside(ui) != []
    else if i in Flight(ui) then Queue(ui) != []
    else ui.effectDue && |ui.view| == 1 && ui.view[0] != i
  }

  /** `i` is live, and a frame is on its way or can be sent before its turn. */
  predicate CanBeEarly(s: System, i: nat) {
    i < |s.fates| && s.fates[i] == Live && (s.acks.frames > 0 || EarlierAlone(s.slot, s.ui, i))
  }

  predicate IsEarly(s: System, i: nat, w: nat) {
    && w < |s.acks.waits| && s.acks.waits[w] == Acknowledged
    && i < |s.fates| && s.fates[i] == Live
  }

  /** Some run acknowledges wait `w` while destination `i` is live. */
  ghost predicate IsEarlyAfter(s: System, i: nat, w: nat) {
    exists steps :: IsRun(s, steps) && IsEarly(Result(s, steps), i, w)
  }

  lemma FatesLast(s: System, step: Step, i: nat)
    requires Inv(s) && Apart(s) && Enabled(s, step) && i < |s.fates|
    ensures i < |Apply(s, step).fates|
    ensures s.fates[i] != Live ==> Apply(s, step).fates[i] != Live
  {
    if step.RunEffect? && s.ui.view != [] {
      assert s.ui.view[0] in Queue(s.ui);
    }
  }

  lemma QueueIsNotFlight(s: System, i: nat)
    requires Ordered(s) && i in Queue(s.ui)
    ensures i !in Flight(s.ui)
  {
    Tail(s.acted, Inside(s.ui) + AsSeq(s.slot));
    Tail(Inside(s.ui), AsSeq(s.slot));
    if i in Flight(s.ui) {
      Before(Queue(s.ui), Flight(s.ui), i, i);
    }
  }

  /** Where a live destination is, once and only once. */
  predicate IsInOnePlace(slot: Option<nat>, ui: Renderer, i: nat) {
    && (slot == Some(i) || i in Flight(ui) || i in Queue(ui))
    && (slot == Some(i) ==> i !in Inside(ui))
    && (i in Flight(ui) ==> i !in Queue(ui))
  }

  lemma LiveIsInOnePlace(s: System, i: nat)
    requires Inv(s) && Apart(s) && i < |s.fates| && s.fates[i] == Live
    ensures IsInOnePlace(s.slot, s.ui, i)
  {
    assert i in Inside(s.ui) + AsSeq(s.slot);
    if i in Queue(s.ui) {
      QueueIsNotFlight(s, i);
    }
  }

  lemma EffectStaysLate(slot: Option<nat>, ui: Renderer, i: nat)
    requires QueueShape(ui) && ui.mounted && ui.effectDue
    requires IsInOnePlace(slot, ui, i) && !EarlierAlone(slot, ui, i)
    ensures !EarlierAlone(slot, AfterEffect(ui), i)
    ensures |ui.view| == 1 ==> ui.view[0] == i
  {
    EffectDropsHead(ui);
    if ui.view != [] {
      assert ui.view[0] in Queue(ui);
    }
  }

  lemma RenderStaysLate(slot: Option<nat>, ui: Renderer, callbacksChanged: bool, i: nat)
    requires QueueShape(ui) && !ui.effectDue
    requires IsInOnePlace(slot, ui, i) && !EarlierAlone(slot, ui, i)
    ensures !EarlierAlone(slot, Rendered(ui, callbacksChanged), i)
  {
    var after := Rendered(ui, callbacksChanged);
    RenderKeepsQueue(ui, callbacksChanged);
    assert Flight(after) == Flight(ui);
    if after.effectDue {
      assert Queue(after) == after.view + [] == after.view;
    }
  }

  lemma HandleStaysLate(slot: Option<nat>, ui: Renderer, i: nat)
    requires QueueShape(ui) && ui.taken.Some?
    requires IsInOnePlace(slot, ui, i) && !EarlierAlone(slot, ui, i)
    ensures !EarlierAlone(slot, HandleTaken(ui), i)
  {
    HandleMovesFlight(ui);
    if i in Flight(ui) {
      assert ui.effectDue ==> ui.view == [];
    }
  }

  lemma OthersStayLate(s: System, step: Step, i: nat)
    requires Inv(s) && Apart(s) && Enabled(s, step) && i < |s.fates| && s.fates[i] == Live
    requires !step.RunEffect? && !step.Render? && !step.Handle?
    requires s.acks.frames == 0 && !EarlierAlone(s.slot, s.ui, i)
    ensures !CanBeEarly(Apply(s, step), i)
  {
    LiveIsInOnePlace(s, i);
    var t := Apply(s, step);
    if Leaves(step) || step.Mount? {
      assert Inside(t.ui) == [];
    } else {
      assert Queue(t.ui) == Queue(s.ui);
    }
  }

  lemma StepStaysLate(s: System, step: Step, i: nat)
    requires Inv(s) && Apart(s) && Enabled(s, step) && i < |s.fates| && !CanBeEarly(s, i)
    ensures !CanBeEarly(Apply(s, step), i)
  {
    FatesLast(s, step, i);
    if s.fates[i] == Live {
      LiveIsInOnePlace(s, i);
      match step
      case RunEffect => EffectStaysLate(s.slot, s.ui, i);
      case Render(callbacksChanged) => RenderStaysLate(s.slot, s.ui, callbacksChanged, i);
      case Handle => HandleStaysLate(s.slot, s.ui, i);
      case _ => OthersStayLate(s, step, i);
    }
  }

  lemma StepIsNeverEarly(s: System, step: Step, i: nat, w: nat)
    requires Enabled(s, step) && i < |s.fates| && w < |s.acks.waits| && !CanBeEarly(s, i) && !IsEarly(s, i, w)
    requires i < |Apply(s, step).fates| && (s.fates[i] != Live ==> Apply(s, step).fates[i] != Live)
    ensures w < |Apply(s, step).acks.waits| && !IsEarly(Apply(s, step), i, w)
  {
  }

  lemma {:induction false} RunIsNeverEarly(s: System, steps: seq<Step>, i: nat, w: nat)
    requires Inv(s) && IsRun(s, steps) && i < |s.fates| && w < |s.acks.waits|
    requires !CanBeEarly(s, i) && !IsEarly(s, i, w)
    ensures !CanBeEarly(Result(s, steps), i) && !IsEarly(Result(s, steps), i, w)
    decreases |steps|
  {
    if steps != [] {
      var t := Apply(s, steps[0]);
      StepKeepsInv(s, steps[0]);
      StepStaysLate(s, steps[0], i);
      FatesLast(s, steps[0], i);
      StepIsNeverEarly(s, steps[0], i, w);
      RunIsNeverEarly(t, steps[1..], i, w);
    }
  }

  lemma EarlyOneStepOn(s: System, step: Step, i: nat, w: nat)
    requires Enabled(s, step) && IsEarlyAfter(Apply(s, step), i, w)
    ensures IsEarlyAfter(s, i, w)
  {
    var t := Apply(s, step);
    var more :| IsRun(t, more) && IsEarly(Result(t, more), i, w);
    assert ([step] + more)[1..] == more;
    assert IsRun(s, [step] + more) && Result(s, [step] + more) == Result(t, more);
  }

  /** Wait `w` is the one an acknowledgement would release. */
  predicate Awaited(acks: Acks, w: nat) {
    w < |acks.waits| && acks.waits[w] == Waiting && acks.sender == Some(w)
  }

  lemma FrameIsEarly(s: System, i: nat, w: nat)
    requires Awaited(s.acks, w) && s.acks.frames > 0 && i < |s.fates| && s.fates[i] == Live
    ensures IsEarlyAfter(s, i, w)
  {
    var t := Apply(s, Acknowledge);
    assert IsRun(t, []) && IsEarly(Result(t, []), i, w);
    EarlyOneStepOn(s, Acknowledge, i, w);
  }

  /** How far the queue is from acting on its head. */
  function EffectRank(ui: Renderer): nat {
    if !ui.effectDue then 1 else if ui.view == [] then 2 else 0
  }

  lemma RenderBringsEffect(ui: Renderer)
    requires QueueShape(ui) && !ui.effectDue && Queue(ui) != []
    ensures Rendered(ui, false).effectDue && Rendered(ui, false).view != []
  {
    RenderKeepsQueue(ui, false);
    assert ui.updates != [];
    assert Queue(Rendered(ui, false)) == Rendered(ui, false).view + [];
  }

  /** Queued destinations are acted on one after the other, and the last of a view sends a frame. */
  lemma {:induction false} QueueIsEarly(s: System, i: nat, w: nat)
    requires Inv(s) && Awaited(s.acks, w) && i < |s.fates| && s.fates[i] == Live
    requires Queue(s.ui) != [] && i !in Queue(s.ui)
    ensures IsEarlyAfter(s, i, w)
    decreases |Queue(s.ui)|, EffectRank(s.ui)
  {
    var step := if s.ui.effectDue then RunEffect else Render(false);
    var t := Apply(s, step);
    StepKeepsInv(s, step);
    if !s.ui.effectDue {
      RenderBringsEffect(s.ui);
      RenderKeepsQueue(s.ui, false);
      QueueIsEarly(t, i, w);
    } else {
      EffectDropsHead(s.ui);
      if s.ui.view == [] {
        NothingBefore(Queue(t.ui));
        QueueIsEarly(t, i, w);
      } else {
        assert s.ui.view[0] in Queue(s.ui);
        if |s.ui.view| == 1 {
          FrameIsEarly(t, i, w);
        } else {
          assert s.ui.view[1] in Queue(t.ui);
          assert i !in Queue(t.ui);
          QueueIsEarly(t, i, w);
        }
      }
    }
    EarlyOneStepOn(s, step, i, w);
  }

  lemma EarlyIfItCanBe(s: System, i: nat, w: nat)
    requires Inv(s) && Apart(s) && Awaited(s.acks, w) && CanBeEarly(s, i)
    ensures IsEarlyAfter(s, i, w)
  {
    LiveIsInOnePlace(s, i);
    if s.acks.frames > 0 {
      FrameIsEarly(s, i, w);
    } else if s.slot != Some(i) && i !in Flight(s.ui) {
      FrameIsEarly(Apply(s, RunEffect), i, w);
      EarlyOneStepOn(s, RunEffect, i, w);
    } else if Queue(s.ui) != [] {
      QueueIsEarly(s, i, w);
    } else {
      StepKeepsInv(s, Handle);
      HandleMovesFlight(s.ui);
      assert Queue(Apply(s, Handle).ui) == Flight(s.ui);
      QueueIsEarly(Apply(s, Handle), i, w);
      EarlyOneStepOn(s, Handle, i, w);
    }
  }

  /**
   The wait that an opening arms can be acknowledged while its own destination is live if
   and only if, when it is armed, that destination is live and a frame is on its way or an
   earlier destination can still send one before its turn.
   */
  lemma AcknowledgedEarlyExactly(s: System, i: nat)
    requires Reachable(s) && s.window && Enabled(s, FindWindow(i))
    ensures IsEarlyAfter(Apply(s, FindWindow(i)), i, |s.acks.waits|) <==> CanBeEarly(s, i)
  {
    ReachableIsInv(s);
    var t, w := Apply(s, FindWindow(i)), |s.acks.waits|;
    StepKeepsInv(s, FindWindow(i));
    assert CanBeEarly(t, i) == CanBeEarly(s, i);
    if CanBeEarly(s, i) {
      EarlyIfItCanBe(t, i, w);
    } else if IsEarlyAfter(t, i, w) {
      var steps :| IsRun(t, steps) && IsEarly(Result(t, steps), i, w);
      RunIsNeverEarly(t, steps, i, w);
    }
  }

  /** The destinations still to be acted on, oldest first. */
  function Ahead(s: System): seq<nat> {
    Inside(s.ui) + AsSeq(s.slot)
  }

  predicate AllFrom(ids: seq<nat>, i: nat) {
    forall k | 0 <= k < |ids| :: i <= ids[k]
  }

  lemma HeadIsLeast(ids: seq<nat>, id: nat)
    requires Increasing(ids) && id in ids
    ensures ids[0] <= id
  {
    var k :| 0 <= k < |ids| && ids[k] == id;
  }

  lemma NothingEarlierIsAlone(s: System, i: nat)
    requires Inv(s) && i < |s.fates| && s.fates[i] == Live && AllFrom(Ahead(s), i)
    ensures !EarlierAlone(s.slot, s.ui, i)
  {
    OrderedIsApart(s);
    LiveIsInOnePlace(s, i);
    var ahead := Ahead(s);
    Tail(s.acted, ahead);
    HeadIsLeast(ahead, i);
    if s.slot != Some(i) && i !in Flight(s.ui) && s.ui.effectDue && s.ui.view != [] {
      assert s.ui.view[0] == Queue(s.ui)[0] == ahead[0];
    }
  }

  /**
   In particular a wait armed when no frame is on its way and no earlier destination is
   live is acknowledged only once its own destination has been acted on or skipped.
   */
  lemma AcknowledgedOnceItsTurnCame(s: System, i: nat, steps: seq<Step>)
    requires Reachable(s) && Enabled(s, FindWindow(i)) && s.window && i < |s.fates|
    requires s.acks.frames == 0 && AllFrom(Ahead(s), i)
    requires IsRun(Apply(s, FindWindow(i)), steps)
    ensures var t := Result(Apply(s, FindWindow(i)), steps);
            Enabled(t, Acknowledge) || (|s.acks.waits| < |t.acks.waits| && t.acks.waits[|s.acks.waits|] == Acknowledged)
            ==> i < |t.fates| && t.fates[i] != Live
  {
    ReachableIsInv(s);
    if s.fates[i] == Live {
      NothingEarlierIsAlone(s, i);
    }
    StepKeepsInv(s, FindWindow(i));
    RunIsNeverEarly(Apply(s, FindWindow(i)), steps, i, |s.acks.waits|);
    RunKeepsCount(Apply(s, FindWindow(i)), steps);
  }

  lemma {:induction false} RunKeepsCount(s: System, steps: seq<Step>)
    requires IsRun(s, steps)
    ensures |Result(s, steps).fates| >= |s.fates|
    decreases |steps|
  {
    if steps != [] {
      RunKeepsCount(Apply(s, steps[0]), steps[1..]);
    }
  }

  // ---------- a lost emission ----------

  /** The first opening built the window, and its destination was acted on. */
  const FIRST_DONE := System(
    None, [Finished], [ActedOn], [0], true, 0,
    Renderer(true, false, 0, 0, None, [], [], false), Acks(1, None, []))

  lemma FirstTaken() returns (s: System)
    ensures Reachable(s)
    ensures s == System(None, [Shown], [Live], [], true, 0,
                        Renderer(true, false, 0, 0, Some(Some(0)), [], [], false), Acks(0, None, []))
  {
    assert IsRun(START, []) && Result(START, []) == START;
    var s1 := Apply(START, Install);
    ReachOne(START, Install);
    var s2 := Apply(s1, FindWindow(0));
    ReachOne(s1, FindWindow(0));
    var s3 := Apply(s2, ShowWindow(0, true));
    ReachOne(s2, ShowWindow(0, true));
    var s4 := Apply(s3, Mount);
    ReachOne(s3, Mount);
    s := Apply(s4, Take);
    ReachOne(s4, Take);
  }

  lemma FirstRendered() returns (s: System)
    ensures Reachable(s)
    ensures s == System(None, [Shown], [Live], [], true, 0,
                        Renderer(true, false, 0, 0, None, [0], [], true), Acks(0, None, []))
  {
    var s0 := FirstTaken();
    var s1 := Apply(s0, Handle);
    ReachOne(s0, Handle);
    s := Apply(s1, Render(false));
    ReachOne(s1, Render(false));
    assert Updated([], [Append(0)]) == [0];
  }

  lemma FirstActedOn() returns (s: System)
    ensures Reachable(s)
    ensures s == System(None, [Shown], [ActedOn], [0], true, 0,
                        Renderer(true, false, 0, 0, None, [], [], true), Acks(1, None, []))
  {
    var s2 := FirstRendered();
    var s3 := Apply(s2, RunEffect);
    ReachOne(s2, RunEffect);
    s := Apply(s3, Render(false));
    ReachOne(s3, Render(false));
    assert Updated([0], [Remove(0)]) == [];
  }

  lemma FirstDoneIsReachable()
    ensures Reachable(FIRST_DONE)
  {
    var s4 := FirstActedOn();
    var s5 := Apply(s4, RunEffect);
    ReachOne(s4, RunEffect);
    var s6 := Apply(s5, Emit(0));
    ReachOne(s5, Emit(0));
    assert s6 == FIRST_DONE;
  }

  /** The condition does fail: all is quiet, and a destination stays in the slot. */
  lemma AnEmissionCanBeLost() returns (s: System)
    ensures Reachable(s) && Quiet(s) && s.ui.registered
    ensures s.slot == Some(1) && s.acted == [0] && |s.phases| == 2
  {
    FirstDoneIsReachable();
    var s1 := Apply(FIRST_DONE, Install);
    ReachOne(FIRST_DONE, Install);
    var s2 := Apply(s1, FindWindow(1));
    ReachOne(s1, FindWindow(1));
    var s3 := Apply(s2, Emit(1));
    ReachOne(s2, Emit(1));
    s := Apply(s3, Register);
    ReachOne(s3, Register);
  }

  /** A frame sent for destination 0 acknowledges the wait armed for 1, which is still in the slot. */
  lemma AnEarlierFrameCanAcknowledge() returns (s: System)
    ensures Reachable(s) && s.acks.waits == [Acknowledged]
    ensures s.slot == Some(1) && s.fates == [ActedOn, Live] && s.phases == [Finished, Armed]
  {
    FirstDoneIsReachable();
    var s1 := Apply(FIRST_DONE, Install);
    ReachOne(FIRST_DONE, Install);
    var s2 := Apply(s1, FindWindow(1));
    ReachOne(s1, FindWindow(1));
    s := Apply(s2, Acknowledge);
    ReachOne(s2, Acknowledge);
  }

  /** So can a frame sent later, for an earlier destination that was queued when the wait was armed. */
  lemma AnEarlierDestinationCanAcknowledge() returns (armed: System, s: System)
    ensures Reachable(armed) && armed.acks == Acks(0, Some(0), [Waiting]) && Inside(armed.ui) == [0]
    ensures Reachable(s) && s.acks.waits == [Acknowledged] && s.fates == [ActedOn, Live]
  {
    var s0 := FirstRendered();
    var s1 := Apply(s0, Install);
    ReachOne(s0, Install);
    armed := Apply(s1, FindWindow(1));
    ReachOne(s1, FindWindow(1));
    var s3 := Apply(armed, RunEffect);
    ReachOne(armed, RunEffect);
    s := Apply(s3, Acknowledge);
    ReachOne(s3, Acknowledge);
  }

  // ---------- openings and renders that come to nothing ----------

  lemma RunStep(s: System, step: Step, steps: seq<Step>)
    requires Enabled(s, step) && IsRun(Apply(s, step), steps)
    ensures IsRun(s, [step] + steps) && Result(s, [step] + steps) == Result(Apply(s, step), steps)
  {
    assert ([step] + steps)[1..] == steps;
  }

  /**
   An opening without a window that cannot be shown, left alone until it has rolled back,
   leaves the slot empty and its destination rolled back, and changes nothing else.
   */
  lemma FailedOpeningLeavesNothing(s: System) returns (steps: seq<Step>)
    requires Reachable(s) && !s.window
    ensures IsRun(s, steps) && Install in steps
    ensures Result(s, steps) ==
            s.(slot := None, phases := s.phases + [Finished],
               fates := SetFates(s.fates, AsSeq(s.slot), Overwritten) + [RolledBack])
  {
    ReachableIsInv(s);
    var i := |s.phases|;
    var s1 := Apply(s, Install);
    var s2 := Apply(s1, FindWindow(i));
    var s3 := Apply(s2, ShowWindow(i, false));
    var s4 := Apply(s3, RollBack(i));
    var overwritten := SetFates(s.fates, AsSeq(s.slot), Overwritten);
    assert s1.fates == overwritten + [Live] && |overwritten| == i;
    assert SetFates(s1.fates, [i], RolledBack) == overwritten + [RolledBack];
    assert s4.phases == s.phases + [Finished];
    assert IsRun(s4, []) && Result(s4, []) == s4;
    RunStep(s3, RollBack(i), []);
    RunStep(s2, ShowWindow(i, false), [RollBack(i)] + []);
    RunStep(s1, FindWindow(i), [ShowWindow(i, false)] + ([RollBack(i)] + []));
    steps := [Install] + ([FindWindow(i)] + ([ShowWindow(i, false)] + ([RollBack(i)] + [])));
    RunStep(s, Install, [FindWindow(i)] + ([ShowWindow(i, false)] + ([RollBack(i)] + [])));
  }

  /** A render for new callbacks alone runs the effect, which then has nothing to do. */
  lemma CallbacksAloneDoNothing(s: System)
    requires Reachable(s) && s.ui.mounted && !s.ui.effectDue && s.ui.updates == []
    ensures var rendered := Apply(s, Render(true));
            Enabled(rendered, RunEffect) && Apply(rendered, RunEffect) == s
  {
    ReachableIsInv(s);
  }

  /**
   A window that is destroyed, built and mounted again starts over: it keeps what waits in
   the slot, asks for it once, and has dropped whatever the old one held. Only commands and
   frames that were already sent may outlive the old one.
   */
  lemma AWindowStartsOver(s: System, takes: nat, frames: nat) returns (steps: seq<Step>)
    requires Reachable(s) && s.window && takes <= s.orphans + s.ui.drains && frames <= s.acks.frames
    ensures IsRun(s, steps) && Destroy(takes, frames) in steps
    ensures Result(s, steps) ==
            s.(ui := Renderer(true, false, 0, 1, None, [], [], false), orphans := takes,
               acks := s.acks.(frames := frames), fates := SetFates(s.fates, Inside(s.ui), Dropped))
  {
    ReachableIsInv(s);
    var s1 := Apply(s, Destroy(takes, frames));
    var s2 := Apply(s1, Build);
    var s3 := Apply(s2, Mount);
    assert IsRun(s3, []) && Result(s3, []) == s3;
    RunStep(s2, Mount, []);
    RunStep(s1, Build, [Mount] + []);
    steps := [Destroy(takes, frames)] + ([Build] + ([Mount] + []));
    RunStep(s, Destroy(takes, frames), [Build] + ([Mount] + []));
  }
}
