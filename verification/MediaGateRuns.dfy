/** Any number of tasks sharing the media slot (backend/app/hardware/ffmpeg.py:218-281, 583-675,
    1353-1385). Launching a process and registering it is one step here. */
module MediaGateRuns {
  import opened Options
  import opened MediaGate
  import opened Runs

  type Task = nat

  /** What a task is doing with the slot. */
  datatype Phase = Outside | Settling(pending: set<ChildId>) | Inside

  datatype System = System(gate: Gate, holder: Option<Task>, phase: Phase, hold: nat, nextChild: ChildId)

  datatype Action =
    | Acquire(task: Task)                    // the lock is taken, and settle looks around
    | SettleOk                               // every child waited for has exited
    | SettleTimeout                          // they had their time, or the task learns too late that they exited
    | Cancel                                 // settling was interrupted, so the lock is given back
    | LaunchProbe(what: string)              // a gated ffprobe, by the holder
    | LaunchVaapi(what: string)              // a hardware decode, by the holder, if the slot is sound
    | LaunchSoftware(what: string)           // outside the slot, by anyone
    | Exit(id: ChildId)                      // a child's exit is confirmed
    | Release                                // the holder leaves, whatever it left running

  function Initial(): System {
    System(Gate(map[], None), None, Outside, 0, 0)
  }

  predicate Enabled(s: System, a: Action) {
    match a
    case Acquire(_) => s.holder.None?
    case SettleOk => s.phase.Settling? && s.gate.Settled(s.phase.pending)
    case SettleTimeout => s.phase.Settling? && s.phase.pending != {}
    case Cancel => s.phase.Settling?
    case LaunchProbe(_) => s.phase.Inside?
    case LaunchVaapi(_) => s.phase.Inside? && s.gate.GpuSafe()
    case LaunchSoftware(_) => true
    case Exit(id) => s.gate.Live(id)
    case Release => s.phase.Inside?
  }

  function Launched(s: System, what: string, gated: bool): System {
    s.(gate := s.gate.Registered(s.nextChild, Child(what, gated, s.hold)), nextChild := s.nextChild + 1)
  }

  function Act(s: System, a: Action): System
    requires Enabled(s, a)
  {
    match a
    case Acquire(task) =>
      var pending := s.gate.GatedChildren();
      s.(holder := Some(task), hold := s.hold + 1, phase := if pending == {} then Inside else Settling(pending))
    case SettleOk => s.(phase := Inside)
    case SettleTimeout => s.(gate := s.gate.GivenUp(s.phase.pending), phase := Inside)
    case Cancel => s.(holder := None, phase := Outside)
    case LaunchProbe(what) => Launched(s, what, true)
    case LaunchVaapi(what) => Launched(s, what, true)
    case LaunchSoftware(what) => Launched(s, what, false)
    case Exit(id) => s.(gate := s.gate.Retired(id))
    case Release => s.(holder := None, phase := Outside)
  }

  // ----- The invariant ------------------------------------------------------------------

  /** Child numbers are fresh, and nobody has launched a child in a holding yet to come. */
  ghost predicate Numbered(s: System) {
    forall id: ChildId :: s.gate.Live(id) ==> id < s.nextChild && s.gate.children[id].hold <= s.hold
  }

  /** While the holder settles, the children alive that it waits for are the gated ones there are. */
  ghost predicate SettlesForAll(s: System) {
    s.phase.Settling? ==>
      && (forall id :: s.gate.LiveGated(id) ==> id in s.phase.pending)
      && forall id :: id in s.phase.pending ==> id < s.nextChild && (s.gate.Live(id) ==> s.gate.LiveGated(id))
  }

  /** In a sound slot, every gated child alive was launched in the present holding. */
  ghost predicate OwnChildrenOnly(s: System) {
    s.phase.Inside? && s.gate.GpuSafe() ==>
      forall id :: s.gate.LiveGated(id) ==> s.gate.children[id].hold == s.hold
  }

  ghost predicate Inv(s: System) {
    && Numbered(s) && SettlesForAll(s) && OwnChildrenOnly(s)
    && (s.holder.None? <==> s.phase.Outside?)
  }

  lemma ExitKeepsInv(s: System, id: ChildId)
    requires Inv(s) && Enabled(s, Exit(id))
    ensures Inv(Act(s, Exit(id)))
  {
    var after := Act(s, Exit(id));
    var left := Gate(s.gate.children - {id}, s.gate.unhealthy);
    assert forall c :: after.gate.LiveGated(c) ==> c in left.GatedChildren();
    assert forall c :: after.gate.Live(c) ==> s.gate.Live(c);
    assert forall c :: after.gate.LiveGated(c) ==> s.gate.LiveGated(c);
  }

  lemma ActKeepsInv(s: System, a: Action)
    requires Inv(s) && Enabled(s, a)
    ensures Inv(Act(s, a))
  {
    if a.Exit? {
      ExitKeepsInv(s, a.id);
    }
  }

  // ----- Runs ---------------------------------------------------------------------------

  ghost predicate Starts(s: System) {
    s == Initial()
  }

  ghost predicate Step(s: System, a: Action, after: System) {
    Enabled(s, a) && after == Act(s, a)
  }

  ghost predicate IsRun(run: seq<System>, actions: seq<Action>) {
    IsRunOf(run, actions, Starts, Step)
  }

  lemma RunKeepsInv(run: seq<System>, actions: seq<Action>, n: nat)
    requires IsRun(run, actions) && n < |run|
    ensures Inv(run[n])
  {
    forall s, a, after | Inv(s) && Step(s, a, after)
      ensures Inv(after)
    {
      ActKeepsInv(s, a);
    }
    RunKeeps(run, actions, Starts, Step, Inv, n);
  }

  /** Whoever is inside a sound slot shares the chip with no child of another holder. */
  lemma SoundSlotIsOwnSlot(run: seq<System>, actions: seq<Action>, n: nat, id: ChildId)
    requires IsRun(run, actions) && n < |run|
    requires run[n].phase.Inside? && run[n].gate.GpuSafe() && run[n].gate.LiveGated(id)
    ensures run[n].gate.children[id].hold == run[n].hold
  {
    RunKeepsInv(run, actions, n);
  }

  /** So no hardware decode is ever launched beside another holder's gated child. */
  lemma VaapiLaunchesAlone(run: seq<System>, actions: seq<Action>, n: nat, id: ChildId)
    requires IsRun(run, actions) && n < |actions| && actions[n].LaunchVaapi?
    requires run[n + 1].gate.LiveGated(id)
    ensures run[n + 1].gate.children[id].hold == run[n + 1].hold
  {
    RunKeepsInv(run, actions, n);
    assert StepsAt(run, actions, Step, n);
    assert id != run[n].nextChild ==> run[n].gate.LiveGated(id);
  }

  // ----- Who occupies the slot, read off the actions --------------------------------------

  /** A child that may touch the chip: a probe or a hardware decode. */
  predicate LaunchesOntoChip(a: Action) {
    a.LaunchProbe? || a.LaunchVaapi?
  }

  predicate Launches(a: Action) {
    LaunchesOntoChip(a) || a.LaunchSoftware?
  }

  /** The child of number `id` is alive as it was launched, in holding `hold`. */
  predicate IsAsLaunched(s: System, id: ChildId, gated: bool, hold: nat) {
    id < s.nextChild && (s.gate.Live(id) ==> s.gate.children[id].gated == gated && s.gate.children[id].hold == hold)
  }

  lemma StepKeepsChild(s: System, a: Action, after: System, id: ChildId, gated: bool, hold: nat)
    requires Step(s, a, after) && IsAsLaunched(s, id, gated, hold)
    ensures IsAsLaunched(after, id, gated, hold)
  {
  }

  lemma LaunchIsAsLaunched(s: System, a: Action, after: System)
    requires Step(s, a, after) && Launches(a)
    ensures IsAsLaunched(after, s.nextChild, LaunchesOntoChip(a), s.hold) && after.gate.Live(s.nextChild)
  {
  }

  /** A probe or a hardware decode occupies the slot for as long as it lives, and for the holding it was launched
      in; a software decode never does. */
  lemma {:induction false} ChildStaysAsLaunched(run: seq<System>, actions: seq<Action>, i: nat, j: nat)
    requires IsRun(run, actions) && i < j < |run| && Launches(actions[i])
    ensures IsAsLaunched(run[j], run[i].nextChild, LaunchesOntoChip(actions[i]), run[i].hold)
  {
    hide Step, IsAsLaunched, LaunchesOntoChip;
    assert StepsAt(run, actions, Step, j - 1);
    if i < j - 1 {
      ChildStaysAsLaunched(run, actions, i, j - 1);
      StepKeepsChild(run[j - 1], actions[j - 1], run[j], run[i].nextChild, LaunchesOntoChip(actions[i]), run[i].hold);
    } else {
      LaunchIsAsLaunched(run[i], actions[i], run[j]);
    }
  }

  lemma StepKeepsHold(s: System, a: Action, after: System)
    requires Step(s, a, after)
    ensures after.hold == if a.Acquire? then s.hold + 1 else s.hold
  {
  }

  lemma {:induction false} HoldCountsAcquires(run: seq<System>, actions: seq<Action>, i: nat, j: nat, k: nat)
    requires IsRun(run, actions) && i <= k < j < |run|
    ensures run[i].hold <= run[j].hold && (actions[k].Acquire? ==> run[i].hold < run[j].hold)
  {
    hide Step;
    assert StepsAt(run, actions, Step, j - 1);
    StepKeepsHold(run[j - 1], actions[j - 1], run[j]);
    if i < j - 1 {
      HoldCountsAcquires(run, actions, i, j - 1, if k < j - 1 then k else i);
    }
  }

  /** When a hardware decode is launched, every probe and hardware decode still alive was launched since the slot
      was last taken: by this holder and no other. */
  lemma VaapiNeverMeetsAnothers(run: seq<System>, actions: seq<Action>, i: nat, n: nat)
    requires IsRun(run, actions) && i < n < |actions| && actions[n].LaunchVaapi?
    requires LaunchesOntoChip(actions[i]) && run[n].gate.Live(run[i].nextChild)
    ensures run[i].hold == run[n].hold && forall k :: i <= k < n ==> !actions[k].Acquire?
  {
    RunKeepsInv(run, actions, n);
    ChildStaysAsLaunched(run, actions, i, n);
    assert StepsAt(run, actions, Step, n);
    SoundSlotIsOwnSlot(run, actions, n, run[i].nextChild);
    forall k | i <= k < n
      ensures !actions[k].Acquire?
    {
      HoldCountsAcquires(run, actions, i, n, k);
    }
  }

  /** A task that takes the slot while such a child of another lives does not get in before it has waited. */
  lemma NewHolderWaits(run: seq<System>, actions: seq<Action>, i: nat, n: nat)
    requires IsRun(run, actions) && i < n < |actions| && actions[n].Acquire?
    requires LaunchesOntoChip(actions[i]) && run[n].gate.Live(run[i].nextChild)
    ensures run[n + 1].phase.Settling? && run[i].nextChild in run[n + 1].phase.pending
  {
    ChildStaysAsLaunched(run, actions, i, n);
    assert StepsAt(run, actions, Step, n);
    assert run[i].nextChild in run[n].gate.GatedChildren();
  }

  /** A child that a holder gave up waiting for keeps the slot unsound for as long as it lives. */
  lemma {:induction false} StragglerKeepsSlotUnhealthy(run: seq<System>, actions: seq<Action>, i: nat, n: nat, id: ChildId)
    requires IsRun(run, actions) && i < n < |run|
    requires actions[i].SettleTimeout? && run[i].phase.Settling? && id in run[i].phase.pending
    requires run[i].gate.LiveGated(id) && forall k :: i < k <= n ==> run[k].gate.Live(id)
    ensures !run[n].gate.GpuSafe() && run[n].gate.LiveGated(id)
  {
    assert StepsAt(run, actions, Step, n - 1);
    if n - 1 > i {
      StragglerKeepsSlotUnhealthy(run, actions, i, n - 1, id);
      StragglerStep(run, actions, n - 1, id);
    }
  }

  lemma StragglerStep(run: seq<System>, actions: seq<Action>, n: nat, id: ChildId)
    requires IsRun(run, actions) && n < |actions|
    requires !run[n].gate.GpuSafe() && run[n].gate.LiveGated(id) && run[n + 1].gate.Live(id)
    ensures !run[n + 1].gate.GpuSafe() && run[n + 1].gate.LiveGated(id)
  {
    RunKeepsInv(run, actions, n);
    assert StepsAt(run, actions, Step, n);
    if actions[n].Exit? {
      var left := Gate(run[n].gate.children - {actions[n].id}, run[n].gate.unhealthy);
      assert id in left.GatedChildren();
    }
  }

  /** When no gated child is left but the one that exits, or none at all, any exit makes the slot healthy. */
  lemma SlotRecovers(s: System, id: ChildId)
    requires Inv(s) && s.gate.Live(id) && forall c :: s.gate.LiveGated(c) ==> c == id
    ensures Enabled(s, Exit(id)) && Act(s, Exit(id)).gate.GpuSafe() && Act(s, Exit(id)).gate.GatedChildren() == {}
  {
    var left := Gate(s.gate.children - {id}, s.gate.unhealthy);
    assert forall c :: left.LiveGated(c) ==> s.gate.LiveGated(c) && c != id;
    assert left.GatedChildren() == {};
  }

  // ----- A timeout that comes too late ----------------------------------------------------

  /** The clock runs out on a task whose children have all exited by then. */
  predicate TimesOutLate(s: System, a: Action) {
    a.SettleTimeout? && s.phase.Settling? && s.gate.Settled(s.phase.pending)
  }

  /** Every step but that one condemns the slot only for a gated child that is alive. */
  lemma StaysSoundIff(s: System, a: Action)
    requires Inv(s) && s.gate.Sound() && Enabled(s, a)
    ensures Act(s, a).gate.Sound() <==> !TimesOutLate(s, a)
  {
    match a
    case Exit(id) => GatedAfterExit(s.gate, id);
    case SettleTimeout => StragglersAreGated(s);
    case LaunchProbe(what) => LaunchKeepsSound(s, what, true);
    case LaunchVaapi(what) => LaunchKeepsSound(s, what, true);
    case LaunchSoftware(what) => LaunchKeepsSound(s, what, false);
    case _ =>
  }

  lemma LaunchKeepsSound(s: System, what: string, gated: bool)
    requires Inv(s) && s.gate.Sound()
    ensures Launched(s, what, gated).gate.Sound()
  {
    assert s.gate.GatedChildren() <= Launched(s, what, gated).gate.GatedChildren();
  }

  /** Those a task still waits for are gated. */
  lemma StragglersAreGated(s: System)
    requires Inv(s) && s.phase.Settling?
    ensures s.gate.Settled(s.phase.pending) <==> s.gate.GatedChildren() == {}
  {
    if !s.gate.Settled(s.phase.pending) {
      var id :| id in s.phase.pending && s.gate.Live(id);
      assert id in s.gate.GatedChildren();
    }
  }

  ghost predicate Punctual(run: seq<System>, actions: seq<Action>, n: nat)
    requires n <= |actions| <= |run|
  {
    forall i :: 0 <= i < n ==> !TimesOutLate(run[i], actions[i])
  }

  /** So as long as no timeout comes late, an unhealthy slot always has a live gated child to blame. */
  lemma {:induction false} RunStaysSound(run: seq<System>, actions: seq<Action>, n: nat)
    requires IsRun(run, actions) && n < |run| && Punctual(run, actions, n)
    ensures run[n].gate.Sound()
  {
    if n > 0 {
      RunStaysSound(run, actions, n - 1);
      RunKeepsInv(run, actions, n - 1);
      assert StepsAt(run, actions, Step, n - 1);
      StaysSoundIff(run[n - 1], actions[n - 1]);
    }
  }

  /** A timeout that comes late leaves the slot unhealthy with no gated child alive: nobody can launch a hardware
      decode until some other child has come and gone. */
  lemma LateTimeoutCondemnsForNothing(s: System)
    requires Inv(s) && Enabled(s, SettleTimeout) && TimesOutLate(s, SettleTimeout)
    ensures var after := Act(s, SettleTimeout);
            && !after.gate.GpuSafe() && after.gate.GatedChildren() == {}
            && (forall what :: !Enabled(after, LaunchVaapi(what)))
            && (forall what :: Enabled(after, LaunchProbe(what)))
  {
    StragglersAreGated(s);
  }

  /** It happens: a probe left running exits just as the next task stops waiting for it. */
  lemma TimeoutCanComeLate()
    ensures var waiting := Act(Act(Act(Act(Initial(), Acquire(0)), LaunchProbe("a")), Release), Acquire(1));
            && Enabled(waiting, Exit(0)) && waiting.phase == Settling({0})
            && Enabled(Act(waiting, Exit(0)), SettleTimeout) && TimesOutLate(Act(waiting, Exit(0)), SettleTimeout)
  {
    assert Gate(map[], None).GatedChildren() == {};
    var gate := Gate(map[0 := Child("a", true, 1)], None);
    assert gate.GatedChildren() == {0};
  }

  /** The slot is never lost: a task that holds it can always give it back. */
  lemma SlotCanBeGivenBack(run: seq<System>, actions: seq<Action>, n: nat)
    requires IsRun(run, actions) && n < |run| && run[n].holder.Some?
    ensures exists a :: Enabled(run[n], a) && Act(run[n], a).holder.None?
  {
    RunKeepsInv(run, actions, n);
    var a := if run[n].phase.Inside? then Release else Cancel;
    assert Enabled(run[n], a) && Act(run[n], a).holder.None?;
  }

  /** Nor is it kept from anybody: whoever waits gets in once the children waited for are gone, and inside may
      probe at any time, and decode in hardware exactly while the slot is not condemned. */
  lemma HolderGetsIn(run: seq<System>, actions: seq<Action>, n: nat, what: string)
    requires IsRun(run, actions) && n < |run| && run[n].holder.Some?
    ensures run[n].phase.Settling? && (forall id :: id in run[n].phase.pending ==> !run[n].gate.Live(id)) ==>
              Enabled(run[n], SettleOk) && Act(run[n], SettleOk).phase.Inside?
    ensures run[n].phase.Inside? ==>
              Enabled(run[n], LaunchProbe(what)) && (Enabled(run[n], LaunchVaapi(what)) <==> run[n].gate.unhealthy == None)
    ensures forall id: ChildId :: run[n].gate.Live(id) ==> Enabled(run[n], Exit(id))
    ensures run[n].phase.Settling? || run[n].phase.Inside?
  {
    RunKeepsInv(run, actions, n);
  }

  /** The slot can be taken exactly while nobody holds it, and is entered at once exactly when no probe or
      hardware decode is alive. */
  lemma SlotIsEnteredIff(s: System, task: Task)
    ensures Enabled(s, Acquire(task)) <==> s.holder == None
    ensures s.holder == None ==>
              var after := Act(s, Acquire(task));
              && after.holder == Some(task)
              && (after.phase.Inside? <==> forall id: ChildId :: s.gate.Live(id) ==> !s.gate.children[id].gated)
  {
    if id: ChildId :| s.gate.LiveGated(id) {
      assert id in s.gate.GatedChildren() && s.gate.Live(id);
    } else {
      assert s.gate.GatedChildren() == {};
      assert forall id: ChildId :: s.gate.Live(id) ==> !s.gate.LiveGated(id);
    }
  }
}
