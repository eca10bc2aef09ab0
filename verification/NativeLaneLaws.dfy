/** What holds in every state of every run of the native lanes. */
module NativeLaneLaws {
  import opened Options
  import opened NativeLanes
  import opened Runs

  datatype Event = Event(thread: Tid, outcome: Outcome)

  /** Any threads, none of them started, and a saved verdict perhaps already applied. */
  ghost predicate Initial(s: State) {
    && (forall t :: t in s.pcs ==> s.pcs[t].Idle?)
    && s.lock == FREE && s.writers == s.cpuActive == 0 && !s.failed && s.sessions == []
  }

  ghost predicate Step(s: State, e: Event, after: State) {
    Enabled(s, e.thread, e.outcome) && after == Act(s, e.thread, e.outcome)
  }

  /** Any interleaving of the threads' steps. */
  ghost predicate IsRun(states: seq<State>, events: seq<Event>) {
    IsRunOf(states, events, Initial, Step)
  }

  lemma InitialIsSound(s: State)
    requires Initial(s)
    ensures Inv(s)
  {
    assert Writers(s.pcs) == {} && CpuCallers(s.pcs) == {};
  }

  lemma RunKeepsInv(states: seq<State>, events: seq<Event>, i: nat)
    requires IsRun(states, events) && i < |states|
    ensures Inv(states[i])
  {
    forall s | Initial(s)
      ensures Inv(s)
    {
      InitialIsSound(s);
    }
    forall s, e, after | Inv(s) && Step(s, e, after)
      ensures Inv(after)
    {
      ActKeeps(s, e.thread, e.outcome);
    }
    RunKeeps(states, events, Initial, Step, Inv, i);
  }

  /** A lane body never overlaps another body or a CPU inference, and both counters are exact. */
  lemma LanesExclude(states: seq<State>, events: seq<Event>, i: nat, t: Tid, u: Tid)
    requires IsRun(states, events) && i < |states|
    requires t in states[i].pcs && u in states[i].pcs && t != u && states[i].pcs[t].InBody()
    ensures !states[i].pcs[u].InBody() && !states[i].pcs[u].InCpuLane() && !states[i].pcs[u].InNativeCode()
    ensures states[i].writers == |Writers(states[i].pcs)| && states[i].cpuActive == 0
  {
    RunKeepsInv(states, events, i);
    AloneInBody(states[i], t);
  }

  lemma CountersAreExact(states: seq<State>, events: seq<Event>, i: nat)
    requires IsRun(states, events) && i < |states|
    ensures states[i].writers == |Writers(states[i].pcs)|
    ensures states[i].cpuActive == |CpuCallers(states[i].pcs)|
  {
    RunKeepsInv(states, events, i);
  }

  lemma LatchStaysSet(states: seq<State>, events: seq<Event>, i: nat)
    requires IsRun(states, events) && i < |events|
    ensures states[i].failed ==> states[i + 1].failed
  {
    assert StepsAt(states, events, Step, i);
  }

  lemma {:induction false} FailureIsForGood(states: seq<State>, events: seq<Event>, i: nat, j: nat)
    requires IsRun(states, events) && i <= j < |states| && states[i].failed
    ensures states[j].failed
  {
    if i < j {
      FailureIsForGood(states, events, i, j - 1);
      LatchStaysSet(states, events, j - 1);
    }
  }

  // ----- What latches, and what switches the GPU off ---------------------------------------

  /** The driver tells the event's thread that its context is gone. */
  predicate ContextFails(s: State, e: Event) {
    && e.thread in s.pcs && e.outcome.ContextFailure?
    && (s.pcs[e.thread].Inferring? || s.pcs[e.thread] == Compiling(Gpu) || s.pcs[e.thread] == Querying(Gpu))
  }

  /** The event's thread takes a session off the GPU, or off the failed context, for a reason of its own. */
  predicate TakesOff(s: State, e: Event) {
    && e.thread in s.pcs && s.pcs[e.thread].EnsureStart? && s.pcs[e.thread].session < |s.sessions|
    && var session := s.sessions[s.pcs[e.thread].session];
       !session.ort && (session.device == Gpu || s.failed)
  }

  lemma StepLatchesIff(s: State, e: Event, after: State)
    requires Step(s, e, after)
    ensures after.failed <==> s.failed || ContextFails(s, e)
    ensures after.disabled <==> s.disabled || ContextFails(s, e) || TakesOff(s, e)
  {
  }

  ghost predicate FailedBefore(states: seq<State>, events: seq<Event>, n: nat)
    requires n <= |events| <= |states|
  {
    exists i :: 0 <= i < n && ContextFails(states[i], events[i])
  }

  ghost predicate TakenOffBefore(states: seq<State>, events: seq<Event>, n: nat)
    requires n <= |events| <= |states|
  {
    exists i :: 0 <= i < n && TakesOff(states[i], events[i])
  }

  lemma OneMoreEvent(states: seq<State>, events: seq<Event>, n: nat)
    requires n < |events| <= |states|
    ensures FailedBefore(states, events, n + 1) <==> FailedBefore(states, events, n) || ContextFails(states[n], events[n])
    ensures TakenOffBefore(states, events, n + 1) <==> TakenOffBefore(states, events, n) || TakesOff(states[n], events[n])
  {
  }

  /** The latch is set exactly by a context failure of a GPU inference, compile or query. The GPU is off
      exactly since such a failure, or since a session was taken off it, or from the start. */
  lemma {:induction false} LatchedIff(states: seq<State>, events: seq<Event>, n: nat)
    requires IsRun(states, events) && n < |states|
    ensures states[n].failed <==> FailedBefore(states, events, n)
    ensures states[n].disabled <==>
              states[0].disabled || FailedBefore(states, events, n) || TakenOffBefore(states, events, n)
  {
    hide ContextFails, TakesOff, FailedBefore, TakenOffBefore, Step;
    if n == 0 {
      NothingBefore(states, events);
    } else {
      LatchedIff(states, events, n - 1);
      assert StepsAt(states, events, Step, n - 1);
      StepLatchesIff(states[n - 1], events[n - 1], states[n]);
      OneMoreEvent(states, events, n - 1);
    }
  }

  lemma NothingBefore(states: seq<State>, events: seq<Event>)
    requires |events| <= |states|
    ensures !FailedBefore(states, events, 0) && !TakenOffBefore(states, events, 0)
  {
  }

  /** From a context failure on, the latch is set, the GPU is off, and nobody is in native code or admitted
      to it. */
  lemma ContextFailureEndsNativeCalls(states: seq<State>, events: seq<Event>, i: nat, j: nat, t: Tid)
    requires IsRun(states, events) && i < j < |states| && ContextFails(states[i], events[i])
    ensures states[j].failed && states[j].disabled
    ensures t in states[j].pcs ==> !states[j].pcs[t].InNativeCode() && !states[j].pcs[t].CpuAdmitted?
  {
    hide ContextFails, Step, Initial;
    LatchedIff(states, events, j);
    if t in states[j].pcs {
      NoNativeCallAfterFailure(states, events, j, j, t);
    }
  }

  /** On the GPU itself. */
  predicate OnGpu(pc: Pc) {
    pc.Inferring? || pc == Compiling(Gpu) || pc == Querying(Gpu)
  }

  /** A step moves no other thread, except to wake it. */
  lemma OthersAreWokenAtMost(s: State, t: Tid, o: Outcome, u: Tid)
    requires Enabled(s, t, o) && u in s.pcs && u != t
    ensures u in Act(s, t, o).pcs && (Act(s, t, o).pcs[u] == s.pcs[u] || Act(s, t, o).pcs[u] == s.pcs[u].Woken())
  {
    hide LoadStep, MoveStep, InferStep, RunStep, EnterLane, EnterCpuLane, LeaveLane, LeaveCpuLane;
    var pc := s.pcs[t];
    LoadStepMovesOne(s, t, pc, o, u);
    LeavingWakesOthers(s, t, u);
    if pc.Queued? || pc.LaneWoken? {
      EnteringMovesOne(s.(writers := s.writers + 1), t, pc.job, u);
      EnteringMovesOne(s, t, pc.job, u);
    } else if pc.CpuQueued? || pc.CpuWoken? {
      EnteringCpuMovesOne(s, t, pc.session, u);
    } else if pc.RunStart? || pc.RunDevice? || pc.RunRecheck? {
      RunStepMovesOne(s, t, pc, u);
    } else if pc.Inferring? || (pc.Entered? && pc.job.Infer?) {
      InferStepMovesOne(s, t, pc, o, u);
    } else if pc.EnsureStart? || pc.Moving? || pc.Rebuilding? || pc.Publishing? {
      MoveStepMovesOne(s, t, pc, o, u);
    }
  }

  lemma LeavingWakesOthers(s: State, t: Tid, u: Tid)
    requires u in s.pcs && u != t
    ensures u in LeaveLane(s, t).pcs && LeaveLane(s, t).pcs[u] == s.pcs[u].Woken()
    ensures u in LeaveCpuLane(s, t).pcs && LeaveCpuLane(s, t).pcs[u] == s.pcs[u].Woken()
  {
  }

  lemma EnteringMovesOne(s: State, t: Tid, job: Job, u: Tid)
    requires u in s.pcs && u != t
    ensures u in EnterLane(s, t, job).pcs && EnterLane(s, t, job).pcs[u] == s.pcs[u]
  {
  }

  lemma EnteringCpuMovesOne(s: State, t: Tid, x: Sid, u: Tid)
    requires u in s.pcs && u != t
    ensures u in EnterCpuLane(s, t, x).pcs && EnterCpuLane(s, t, x).pcs[u] == s.pcs[u]
  {
  }

  lemma RunStepMovesOne(s: State, t: Tid, pc: Pc, u: Tid)
    requires (pc.RunStart? || pc.RunDevice? || pc.RunRecheck?) && pc.session < |s.sessions| && u in s.pcs && u != t
    ensures u in RunStep(s, t, pc).pcs && RunStep(s, t, pc).pcs[u] == s.pcs[u]
  {
  }

  lemma InferStepMovesOne(s: State, t: Tid, pc: Pc, o: Outcome, u: Tid)
    requires (pc.Entered? && pc.job.Infer? ==> pc.job.session < |s.sessions|) && u in s.pcs && u != t
    ensures u in InferStep(s, t, pc, o).pcs && InferStep(s, t, pc, o).pcs[u] == s.pcs[u]
  {
  }

  lemma LoadStepMovesOne(s: State, t: Tid, pc: Pc, o: Outcome, u: Tid)
    requires u in s.pcs && u != t
    ensures u in LoadStep(s, t, pc, o).pcs && LoadStep(s, t, pc, o).pcs[u] == s.pcs[u]
  {
  }

  lemma MoveStepMovesOne(s: State, t: Tid, pc: Pc, o: Outcome, u: Tid)
    requires (pc.EnsureStart? || pc.Moving? || pc.Rebuilding? || pc.Publishing?) && pc.session < |s.sessions|
    requires u in s.pcs && u != t
    ensures u in MoveStep(s, t, pc, o).pcs && MoveStep(s, t, pc, o).pcs[u] == s.pcs[u]
  {
  }

  lemma OwnStepOntoGpu(s: State, t: Tid, o: Outcome)
    requires Enabled(s, t, o) && !OnGpu(s.pcs[t]) && t in Act(s, t, o).pcs && OnGpu(Act(s, t, o).pcs[t])
    ensures !s.disabled
  {
    hide MoveStep, NotifyAll;
    var pc := s.pcs[t];
    if pc.EnsureStart? || pc.Moving? || pc.Rebuilding? || pc.Publishing? {
      MoveStepAvoidsGpu(s, t, pc, o);
    }
  }

  lemma MoveStepAvoidsGpu(s: State, t: Tid, pc: Pc, o: Outcome)
    requires (pc.EnsureStart? || pc.Moving? || pc.Rebuilding? || pc.Publishing?) && pc.session < |s.sessions|
    ensures t in MoveStep(s, t, pc, o).pcs && !OnGpu(MoveStep(s, t, pc, o).pcs[t])
  {
  }

  lemma FailedIsDisabled(s: State)
    requires Inv(s)
    ensures s.failed ==> s.disabled
  {
  }

  /** Nobody goes onto the GPU once it is off. */
  lemma NobodyGoesOntoGpu(states: seq<State>, events: seq<Event>, i: nat, t: Tid)
    requires IsRun(states, events) && i < |events| && t in states[i].pcs && t in states[i + 1].pcs
    requires !OnGpu(states[i].pcs[t]) && OnGpu(states[i + 1].pcs[t])
    ensures !states[i].disabled && !states[i].failed
  {
    hide Act, Enabled, Inv;
    assert StepsAt(states, events, Step, i);
    var (u, o) := (events[i].thread, events[i].outcome);
    if t == u {
      OwnStepOntoGpu(states[i], t, o);
    } else {
      OthersAreWokenAtMost(states[i], u, o, t);
    }
    RunKeepsInv(states, events, i);
    FailedIsDisabled(states[i]);
  }

  /** Nor is anybody kept off it without such a reason: a thread in the lane for an inference makes its call
      exactly while the GPU is on and the session has no fallback. */
  lemma InferenceIsMadeIff(states: seq<State>, events: seq<Event>, i: nat, x: Sid)
    requires IsRun(states, events) && i < |events|
    requires var t := events[i].thread; t in states[i].pcs && states[i].pcs[t] == Entered(Infer(x))
    ensures x < |states[i].sessions|
    ensures var t := events[i].thread;
            && t in states[i + 1].pcs
            && (states[i + 1].pcs[t] == Inferring(x) <==> !states[i].disabled && !states[i].sessions[x].ort)
            && (states[i + 1].pcs[t] != Inferring(x) ==> states[i + 1].pcs[t] == Leaving)
  {
    assert StepsAt(states, events, Step, i);
  }

  /** Once a native failure is latched, no thread is ever again inside a native read, compile, query or
      inference, nor admitted to one. */
  lemma NoNativeCallAfterFailure(states: seq<State>, events: seq<Event>, i: nat, j: nat, t: Tid)
    requires IsRun(states, events) && i <= j < |states| && states[i].failed && t in states[j].pcs
    ensures !states[j].pcs[t].InNativeCode() && !states[j].pcs[t].CpuAdmitted?
  {
    FailureIsForGood(states, events, i, j);
    RunKeepsInv(states, events, j);
    assert ThreadOk(states[j], states[j].pcs[t]);
  }

  /** A session compiled for the GPU never reaches the native CPU branch, and by the time its
      device reads CPU its fallback is there to be found. */
  lemma DemotedSessionAvoidsNativeCpu(states: seq<State>, events: seq<Event>, i: nat, x: Sid)
    requires IsRun(states, events) && i < |states| && x < |states[i].sessions|
    requires states[i].sessions[x].origin == Gpu
    ensures forall t :: t in states[i].pcs && states[i].pcs[t].InCpuBranch() ==> states[i].pcs[t].session != x
    ensures states[i].sessions[x].device != Gpu ==> states[i].sessions[x].ort
  {
    RunKeepsInv(states, events, i);
    assert SessionOk(states[i], x);
    forall t | t in states[i].pcs && states[i].pcs[t].InCpuBranch()
      ensures states[i].pcs[t].session != x
    {
      assert ThreadOk(states[i], states[i].pcs[t]);
    }
  }

  lemma LoadStepAdmitsNobody(s: State, t: Tid, pc: Pc, o: Outcome)
    ensures LoadStep(s, t, pc, o).cpuActive == s.cpuActive
  {
  }

  lemma MoveStepAdmitsNobody(s: State, t: Tid, pc: Pc, o: Outcome)
    requires (pc.EnsureStart? || pc.Moving? || pc.Rebuilding? || pc.Publishing?) && pc.session < |s.sessions|
    ensures MoveStep(s, t, pc, o).cpuActive == s.cpuActive
  {
  }

  /** The thread whose turn it was, before and after. */
  ghost predicate Moved(states: seq<State>, events: seq<Event>, i: nat, from: Pc, to: Pc)
    requires |states| == |events| + 1 && i < |events|
  {
    var t := events[i].thread;
    t in states[i].pcs && t in states[i + 1].pcs && states[i].pcs[t] == from && states[i + 1].pcs[t] == to
  }

  /** A run whose session has its fallback is served by it. Any other goes to the lane of its session's device,
      and looks for the fallback again before it calls native CPU code. */
  lemma RunGoesToItsLane(states: seq<State>, events: seq<Event>, i: nat, x: Sid)
    requires IsRun(states, events) && i < |events| && events[i].thread in states[i].pcs
    requires states[i].pcs[events[i].thread] in {RunStart(x), RunDevice(x), RunRecheck(x)}
    ensures x < |states[i].sessions|
    ensures var (session, pc) := (states[i].sessions[x], states[i].pcs[events[i].thread]);
            && (pc == RunStart(x) ==> Moved(states, events, i, pc, if session.ort then Idle else RunDevice(x)))
            && (pc == RunDevice(x) ==>
                  Moved(states, events, i, pc, if session.device == Gpu then Queued(Infer(x)) else RunRecheck(x)))
            && (pc == RunRecheck(x) ==> Moved(states, events, i, pc, if session.ort then Idle else CpuQueued(x)))
  {
    assert StepsAt(states, events, Step, i);
  }

  /** A demotion rebuilds exactly a session without its fallback that is on the GPU or shares a failed context. */
  lemma RebuildsIff(states: seq<State>, events: seq<Event>, i: nat, x: Sid)
    requires IsRun(states, events) && i < |events| && events[i].thread in states[i].pcs
    requires states[i].pcs[events[i].thread] == Moving(x)
    ensures x < |states[i].sessions|
    ensures var session := states[i].sessions[x];
            Moved(states, events, i, Moving(x),
                  if !session.ort && (session.device == Gpu || states[i].failed) then Rebuilding(x) else Idle)
  {
    assert StepsAt(states, events, Step, i);
  }

  /** A demotion that could rebuild publishes the fallback first and the device after it; one that could not
      leaves the session as it was, free to be tried again. */
  lemma DemotionPublishes(states: seq<State>, events: seq<Event>, i: nat, x: Sid)
    requires IsRun(states, events) && i < |events| && events[i].thread in states[i].pcs
    requires states[i].pcs[events[i].thread] in {Rebuilding(x), Publishing(x)}
    ensures x < |states[i].sessions| == |states[i + 1].sessions|
    ensures var (pc, before, after) := (states[i].pcs[events[i].thread], states[i].sessions[x], states[i + 1].sessions[x]);
            if pc == Publishing(x) then
              Moved(states, events, i, pc, Idle) && after.ort && after.device == Cpu && after.rebuilder == None
            else if events[i].outcome.Ok? then
              Moved(states, events, i, pc, Publishing(x)) && after.ort && after.device == before.device
            else Moved(states, events, i, pc, Idle) && after == before.(rebuilder := None)
  {
    RunKeepsInv(states, events, i);
    assert StepsAt(states, events, Step, i);
    assert ThreadOk(states[i], states[i].pcs[events[i].thread]);
  }

  /** A run is admitted to native CPU code only while no writer is in the lane and nothing has failed; after a
      failure it is moved to the fallback instead. */
  lemma CpuRunIsAdmittedIff(states: seq<State>, events: seq<Event>, i: nat, x: Sid)
    requires IsRun(states, events) && i < |events| && events[i].thread in states[i].pcs
    requires states[i].pcs[events[i].thread] in {CpuQueued(x), CpuWoken(x)}
    ensures var (s, pc) := (states[i], states[i].pcs[events[i].thread]);
            && (s.writers > 0 <==> Moved(states, events, i, pc, CpuWait(x)))
            && (s.writers <= 0 && !s.failed <==> Moved(states, events, i, pc, CpuAdmitted(x)))
            && (s.writers <= 0 && s.failed <==> Moved(states, events, i, pc, Moving(x)))
  {
    assert StepsAt(states, events, Step, i);
  }

  /** A load reads its model exactly while nothing has failed, and compiles it exactly while nothing has failed
      and, for the GPU, it is not off. A compile that fails on the GPU for its own reasons may go on for the CPU;
      one that succeeds is queried. */
  lemma LoadGoesOnIff(states: seq<State>, events: seq<Event>, i: nat, target: Device)
    requires IsRun(states, events) && i < |events| && events[i].thread in states[i].pcs
    requires states[i].pcs[events[i].thread] in {Entered(Load(target)), ReadDone(target), Compiling(target)}
    ensures var (s, pc, o) := (states[i], states[i].pcs[events[i].thread], events[i].outcome);
            && (pc == Entered(Load(target)) ==> Moved(states, events, i, pc, if s.failed then Leaving else Reading(target)))
            && (pc == ReadDone(target) ==>
                  Moved(states, events, i, pc,
                        if !s.failed && (target == Cpu || !s.disabled) then Compiling(target) else Leaving))
            && (pc == Compiling(target) ==>
                  Moved(states, events, i, pc,
                        if o.Ok? then Querying(target) else if o.FallBack? then Compiling(Cpu) else Leaving))
  {
    assert StepsAt(states, events, Step, i);
  }

  /** Whatever else is going on, a thread with nothing to do can be called to load a model, or to run or
      demote any session there is. */
  lemma AnyCallCanBegin(s: State, t: Tid, x: Sid, target: Device)
    requires t in s.pcs && s.pcs[t].Idle?
    ensures Enabled(s, t, StartLoad(target))
    ensures Enabled(s, t, StartRun(x)) <==> x < |s.sessions|
    ensures Enabled(s, t, StartEnsure(x)) <==> x < |s.sessions|
  {
  }

  /** Sessions come from queries that end without a context failure, one each, on the device asked for. */
  lemma SessionsComeFromQueries(states: seq<State>, events: seq<Event>, i: nat)
    requires IsRun(states, events) && i < |events|
    ensures var (s, after, e) := (states[i], states[i + 1], events[i]);
            && e.thread in s.pcs
            && (if s.pcs[e.thread].Querying? && !ContextFails(s, e)
                then after.sessions == s.sessions + [Session(s.pcs[e.thread].target, s.pcs[e.thread].target, false, None)]
                else |after.sessions| == |s.sessions|)
  {
    assert StepsAt(states, events, Step, i);
  }

  /** A session that has its fallback keeps it, and no two threads rebuild one session at once. */
  lemma OneRebuilderEach(states: seq<State>, events: seq<Event>, i: nat, t: Tid, u: Tid)
    requires IsRun(states, events) && i < |states| && t in states[i].pcs && u in states[i].pcs
    requires states[i].pcs[t].Demoting() && states[i].pcs[u].Demoting()
    requires states[i].pcs[t].session == states[i].pcs[u].session
    ensures t == u
  {
    RunKeepsInv(states, events, i);
  }

  lemma MoveStepKeepsFallbacks(s: State, t: Tid, pc: Pc, o: Outcome, x: Sid)
    requires (pc.EnsureStart? || pc.Moving? || pc.Rebuilding? || pc.Publishing?) && pc.session < |s.sessions|
    requires x < |s.sessions|
    ensures var after := MoveStep(s, t, pc, o);
            && x < |after.sessions| && after.sessions[x].origin == s.sessions[x].origin
            && (s.sessions[x].ort ==> after.sessions[x].ort)
            && (s.sessions[x].device == Cpu ==> after.sessions[x].device == Cpu)
  {
  }

  lemma StepKeepsFallbacks(s: State, e: Event, after: State, x: Sid)
    requires Step(s, e, after) && x < |s.sessions|
    ensures x < |after.sessions| && after.sessions[x].origin == s.sessions[x].origin
    ensures s.sessions[x].ort ==> after.sessions[x].ort
    ensures s.sessions[x].device == Cpu ==> after.sessions[x].device == Cpu
  {
    hide MoveStep;
    var pc := s.pcs[e.thread];
    if pc.EnsureStart? || pc.Moving? || pc.Rebuilding? || pc.Publishing? {
      MoveStepKeepsFallbacks(s, e.thread, pc, e.outcome, x);
    }
  }

  /** A session keeps the device it was compiled for on record, never loses its fallback and never goes back to
      the GPU. */
  lemma {:induction false} DemotionIsForGood(states: seq<State>, events: seq<Event>, i: nat, j: nat, x: Sid)
    requires IsRun(states, events) && i <= j < |states| && x < |states[i].sessions|
    ensures x < |states[j].sessions| && states[j].sessions[x].origin == states[i].sessions[x].origin
    ensures states[i].sessions[x].ort ==> states[j].sessions[x].ort
    ensures states[i].sessions[x].device == Cpu ==> states[j].sessions[x].device == Cpu
  {
    hide Step;
    if i < j {
      DemotionIsForGood(states, events, i, j - 1, x);
      assert StepsAt(states, events, Step, j - 1);
      StepKeepsFallbacks(states[j - 1], events[j - 1], states[j], x);
    }
  }

  lemma LaneStepAdmitsNobody(s: State, t: Tid, o: Outcome)
    requires Enabled(s, t, o) && !s.pcs[t].CpuQueued? && !s.pcs[t].CpuWoken? && !s.pcs[t].CpuDone?
    ensures Act(s, t, o).cpuActive == s.cpuActive
  {
    hide LoadStep, MoveStep;
    var pc := s.pcs[t];
    LoadStepAdmitsNobody(s, t, pc, o);
    if pc.EnsureStart? || pc.Moving? || pc.Rebuilding? || pc.Publishing? {
      MoveStepAdmitsNobody(s, t, pc, o);
    }
  }

  lemma WritersBlockAdmission(s: State, t: Tid, o: Outcome)
    requires Enabled(s, t, o) && s.writers > 0
    ensures Act(s, t, o).cpuActive <= s.cpuActive
  {
    if !s.pcs[t].CpuQueued? && !s.pcs[t].CpuWoken? && !s.pcs[t].CpuDone? {
      LaneStepAdmitsNobody(s, t, o);
    }
  }

  lemma WritersBlockStep(states: seq<State>, events: seq<Event>, i: nat)
    requires IsRun(states, events) && i < |events| && states[i].writers > 0
    ensures states[i + 1].cpuActive <= states[i].cpuActive
  {
    assert StepsAt(states, events, Step, i);
    WritersBlockAdmission(states[i], events[i].thread, events[i].outcome);
  }

  /** For as long as a writer is in the lane, CPU inferences only drain. */
  lemma {:induction false} WritersAreNotOvertaken(states: seq<State>, events: seq<Event>, i: nat, j: nat)
    requires IsRun(states, events) && i <= j < |states|
    requires forall k :: i <= k < j ==> states[k].writers > 0
    ensures states[j].cpuActive <= states[i].cpuActive
  {
    if i < j {
      WritersAreNotOvertaken(states, events, i, j - 1);
      WritersBlockStep(states, events, j - 1);
    }
  }

  // ----- Where a thread is follows from its own events --------------------------------------

  /** What a thread was called for, the device its load is now for, and how its last reading and compiling
      of a model went. */
  datatype Story = Story(call: Outcome, device: Device, read: Outcome, compiled: Outcome)

  /** The thread's next event happens to it at `pc`. */
  function Told(story: Story, pc: Pc, o: Outcome): Story {
    match pc
    case Idle => story.(call := o, device := if o.StartLoad? then o.target else story.device)
    case Reading(_) => story.(read := o)
    case Compiling(_) => story.(compiled := o, device := if o.FallBack? then Cpu else story.device)
    case _ => story
  }

  ghost function StoryOf(states: seq<State>, events: seq<Event>, n: nat, t: Tid): Story
    requires |states| == |events| + 1 && n < |states|
  {
    if n == 0 then Story(OtherFailure, Cpu, OtherFailure, OtherFailure)
    else
      var before := StoryOf(states, events, n - 1, t);
      if events[n - 1].thread == t && t in states[n - 1].pcs
      then Told(before, states[n - 1].pcs[t], events[n - 1].outcome) else before
  }

  predicate IsFor(job: Job, story: Story) {
    match job
    case Load(target) => story.call.StartLoad? && story.device == target
    case Infer(x) => story.call == StartRun(x)
  }

  /** A load is of a model that was read, and then compiled, for the device it is now for; a run and a
      demotion are of the session they were called for. */
  predicate IsPlaceFor(pc: Pc, story: Story) {
    match pc
    case Queued(job) => IsFor(job, story)
    case LaneWait(job) => IsFor(job, story)
    case LaneWoken(job) => IsFor(job, story)
    case Entered(job) => IsFor(job, story)
    case Reading(target) => IsFor(Load(target), story)
    case ReadDone(target) => IsFor(Load(target), story) && story.read.Ok?
    case Compiling(target) => IsFor(Load(target), story) && story.read.Ok?
    case Querying(target) => IsFor(Load(target), story) && story.read.Ok? && story.compiled.Ok?
    case EnsureStart(x) => story.call == StartEnsure(x)
    case Moving(x) => story.call in {StartRun(x), StartEnsure(x)}
    case Rebuilding(x) => story.call in {StartRun(x), StartEnsure(x)}
    case Publishing(x) => story.call in {StartRun(x), StartEnsure(x)}
    case Idle => true
    case Leaving => true
    case _ => story.call == StartRun(pc.session)
  }

  lemma IdleIsPlaceFor(pc: Pc, story: Story)
    requires pc.Idle?
    ensures IsPlaceFor(pc, story)
  {
  }

  lemma WokenIsPlaceFor(pc: Pc, story: Story)
    requires IsPlaceFor(pc, story)
    ensures IsPlaceFor(pc.Woken(), story)
  {
  }

  /** The place a thread moves itself to. */
  ghost predicate MovesTo(after: State, t: Tid, story: Story) {
    t in after.pcs && IsPlaceFor(after.pcs[t], story)
  }

  lemma LoadStepIsTold(s: State, t: Tid, o: Outcome, story: Story)
    requires t in s.pcs && IsPlaceFor(s.pcs[t], story)
    ensures MovesTo(LoadStep(s, t, s.pcs[t], o), t, Told(story, s.pcs[t], o))
  {
  }

  lemma BeginIsTold(s: State, t: Tid, o: Outcome, story: Story)
    requires Enabled(s, t, o) && s.pcs[t].Idle?
    ensures MovesTo(Begin(s, t, o), t, Told(story, s.pcs[t], o))
  {
  }

  lemma CpuCallIsTold(s: State, t: Tid, o: Outcome, story: Story)
    requires t in s.pcs && IsPlaceFor(s.pcs[t], story) && (s.pcs[t].CpuAdmitted? || s.pcs[t].CpuInferring?)
    ensures MovesTo(At(s, t, CpuInferring(s.pcs[t].session)), t, Told(story, s.pcs[t], o))
    ensures MovesTo(At(s, t, CpuDone(s.pcs[t].session)), t, Told(story, s.pcs[t], o))
  {
  }

  lemma LeavingIsTold(s: State, t: Tid, o: Outcome, story: Story)
    requires t in s.pcs
    ensures MovesTo(LeaveLane(s, t), t, Told(story, s.pcs[t], o))
    ensures MovesTo(LeaveCpuLane(s, t), t, Told(story, s.pcs[t], o))
  {
    hide Told;
  }

  lemma EnteringIsTold(s: State, t: Tid, o: Outcome, story: Story)
    requires t in s.pcs && IsPlaceFor(s.pcs[t], story) && (s.pcs[t].Queued? || s.pcs[t].LaneWoken?)
    ensures MovesTo(EnterLane(s, t, s.pcs[t].job), t, Told(story, s.pcs[t], o))
  {
  }

  lemma EnteringCpuIsTold(s: State, t: Tid, o: Outcome, story: Story)
    requires t in s.pcs && IsPlaceFor(s.pcs[t], story) && (s.pcs[t].CpuQueued? || s.pcs[t].CpuWoken?)
    ensures MovesTo(EnterCpuLane(s, t, s.pcs[t].session), t, Told(story, s.pcs[t], o))
  {
  }

  lemma RunStepIsTold(s: State, t: Tid, o: Outcome, story: Story)
    requires t in s.pcs && IsPlaceFor(s.pcs[t], story)
    requires (s.pcs[t].RunStart? || s.pcs[t].RunDevice? || s.pcs[t].RunRecheck?) && s.pcs[t].session < |s.sessions|
    ensures MovesTo(RunStep(s, t, s.pcs[t]), t, Told(story, s.pcs[t], o))
  {
  }

  lemma InferStepIsTold(s: State, t: Tid, o: Outcome, story: Story)
    requires t in s.pcs && IsPlaceFor(s.pcs[t], story)
    requires s.pcs[t].Entered? && s.pcs[t].job.Infer? ==> s.pcs[t].job.session < |s.sessions|
    requires s.pcs[t].Inferring? || (s.pcs[t].Entered? && s.pcs[t].job.Infer?)
    ensures MovesTo(InferStep(s, t, s.pcs[t], o), t, Told(story, s.pcs[t], o))
  {
  }

  lemma MoveStepIsTold(s: State, t: Tid, o: Outcome, story: Story)
    requires t in s.pcs && IsPlaceFor(s.pcs[t], story) && s.pcs[t].UsesSession() && s.pcs[t].session < |s.sessions|
    requires s.pcs[t].EnsureStart? || s.pcs[t].Moving? || s.pcs[t].Demoting()
    ensures MovesTo(MoveStep(s, t, s.pcs[t], o), t, Told(story, s.pcs[t], o))
  {
  }

  lemma StepIsTold(s: State, t: Tid, o: Outcome, story: Story)
    requires Enabled(s, t, o) && IsPlaceFor(s.pcs[t], story)
    ensures MovesTo(Act(s, t, o), t, Told(story, s.pcs[t], o))
  {
    hide LoadStep, MoveStep, InferStep, RunStep, EnterLane, EnterCpuLane, LeaveLane, LeaveCpuLane;
    hide IsPlaceFor, Told, Begin;
    LoadStepIsTold(s, t, o, story);
    LeavingIsTold(s, t, o, story);
    if s.pcs[t].Idle? {
      BeginIsTold(s, t, o, story);
    } else if s.pcs[t].CpuAdmitted? || s.pcs[t].CpuInferring? {
      CpuCallIsTold(s, t, o, story);
    } else if s.pcs[t].Queued? || s.pcs[t].LaneWoken? {
      EnteringIsTold(s.(writers := s.writers + 1), t, o, story);
      EnteringIsTold(s, t, o, story);
    } else if s.pcs[t].CpuQueued? || s.pcs[t].CpuWoken? {
      EnteringCpuIsTold(s, t, o, story);
    } else if s.pcs[t].RunStart? || s.pcs[t].RunDevice? || s.pcs[t].RunRecheck? {
      RunStepIsTold(s, t, o, story);
    } else if s.pcs[t].Inferring? || (s.pcs[t].Entered? && s.pcs[t].job.Infer?) {
      InferStepIsTold(s, t, o, story);
    } else if s.pcs[t].EnsureStart? || s.pcs[t].Moving? || s.pcs[t].Demoting() {
      MoveStepIsTold(s, t, o, story);
    }
  }

  /** Along every run each thread is where its own events have brought it. */
  lemma {:induction false} PlaceFollowsFromEvents(states: seq<State>, events: seq<Event>, n: nat, t: Tid)
    requires IsRun(states, events) && n < |states| && t in states[0].pcs
    ensures t in states[n].pcs && IsPlaceFor(states[n].pcs[t], StoryOf(states, events, n, t))
  {
    hide IsPlaceFor, Act, Enabled, Told;
    if n == 0 {
      IdleIsPlaceFor(states[0].pcs[t], StoryOf(states, events, 0, t));
    } else {
      var (s, e) := (states[n - 1], events[n - 1]);
      assert StepsAt(states, events, Step, n - 1);
      PlaceFollowsFromEvents(states, events, n - 1, t);
      if e.thread == t {
        StepIsTold(s, t, e.outcome, StoryOf(states, events, n - 1, t));
      } else {
        OthersAreWokenAtMost(s, e.thread, e.outcome, t);
        WokenIsPlaceFor(s.pcs[t], StoryOf(states, events, n - 1, t));
      }
    }
  }

  // ----- No state has every thread blocked ----------------------------------------------

  ghost predicate CanMove(s: State, t: Tid) {
    t in s.pcs && !s.pcs[t].Idle? && Enabled(s, t, Ok)
  }

  /** Whatever thread is busy, some busy thread can take a step. */
  lemma SomeThreadCanMove(states: seq<State>, events: seq<Event>, i: nat, t: Tid)
    requires IsRun(states, events) && i < |states| && t in states[i].pcs && !states[i].pcs[t].Idle?
    ensures exists u :: CanMove(states[i], u)
  {
    RunKeepsInv(states, events, i);
    var s := states[i];
    assert ThreadOk(s, s.pcs[t]);
    if s.lock.owner.Some? {
      HolderCanMove(s, s.lock.owner.value);
    } else if s.pcs[t].LaneWait? {
      SomeCallerCanMove(s);
    } else if s.pcs[t].CpuWait? {
      SomeWriterCanMove(s);
    } else if s.pcs[t].Moving? {
      RebuilderCanMove(s, t);
    } else {
      assert CanMove(s, t);
    }
  }

  lemma HolderCanMove(s: State, t: Tid)
    requires Inv(s) && s.lock.owner == Some(t)
    ensures CanMove(s, t)
  {
    assert ThreadOk(s, s.pcs[t]);
  }

  lemma SomeCallerCanMove(s: State)
    requires Inv(s) && s.cpuActive > 0 && s.lock.owner == None
    ensures exists u :: CanMove(s, u)
  {
    var u :| u in CpuCallers(s.pcs);
    assert ThreadOk(s, s.pcs[u]);
    assert CanMove(s, u);
  }

  lemma SomeWriterCanMove(s: State)
    requires Inv(s) && s.writers > 0 && s.lock.owner == None
    ensures exists u :: CanMove(s, u)
  {
    var u :| u in Writers(s.pcs);
    assert ThreadOk(s, s.pcs[u]);
    if s.pcs[u].LaneWait? {
      SomeCallerCanMove(s);
    } else {
      assert CanMove(s, u);
    }
  }

  lemma RebuilderCanMove(s: State, t: Tid)
    requires Inv(s) && t in s.pcs && s.pcs[t].Moving?
    ensures exists u :: CanMove(s, u)
  {
    assert ThreadOk(s, s.pcs[t]);
    var x := s.pcs[t].session;
    assert SessionOk(s, x);
    if s.sessions[x].rebuilder.Some? {
      assert CanMove(s, s.sessions[x].rebuilder.value);
    } else {
      assert CanMove(s, t);
    }
  }
}
