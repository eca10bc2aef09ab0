/** The exclusive and the shared native lane around OpenVINO, and the one-way failure latch
    (backend/app/ai/openvino_session.py:40-152, 611-795), as steps of concurrent threads.

    A critical section that neither waits nor makes a native call is one step. `Gpu` stands for
    a device whose name starts with GPU, `Cpu` for every other OpenVINO device. */
module NativeLanes {
  import opened Options

  type Tid = nat
  type Sid = nat

  datatype Device = Gpu | Cpu

  /** A session other threads can see. `origin` is the device it was compiled for, `ort` says the
      plain CPU fallback has been published, `rebuilder` holds its rebuild lock. */
  datatype Session = Session(origin: Device, device: Device, ort: bool, rebuilder: Option<Tid>)

  datatype Job = Load(target: Device) | Infer(session: Sid)

  /** Where a thread is. */
  datatype Pc =
    | Idle
    // the exclusive lane
    | Queued(job: Job)
    | LaneWait(job: Job)      // waiting on the condition for CPU calls to drain
    | LaneWoken(job: Job)     // notified, about to take the lock back
    | Entered(job: Job)       // in the lane body, lock held
    | Reading(target: Device)     // native: reading the model
    | ReadDone(target: Device)
    | Compiling(target: Device)   // native, under the nested lock
    | Querying(target: Device)    // native: asking for a property
    | Inferring(session: Sid)     // native
    | Leaving
    // run()
    | RunStart(session: Sid)
    | RunDevice(session: Sid)
    | RunRecheck(session: Sid)
    | CpuQueued(session: Sid)
    | CpuWait(session: Sid)
    | CpuWoken(session: Sid)
    | CpuAdmitted(session: Sid)   // counted, lock released
    | CpuInferring(session: Sid)  // native
    | CpuDone(session: Sid)       // back from native code, still counted
    // demotion to plain ONNX Runtime
    | EnsureStart(session: Sid)
    | Moving(session: Sid)
    | Rebuilding(session: Sid)    // rebuild lock held
    | Publishing(session: Sid)    // fallback published, device not yet changed
  {
    /** In the body of the exclusive lane, which holds the lock throughout. */
    predicate InBody() {
      Entered? || Reading? || ReadDone? || Compiling? || Querying? || Inferring? || Leaving?
    }

    predicate InExclusiveLane() {
      LaneWait? || LaneWoken? || InBody()
    }

    predicate InCpuLane() {
      CpuAdmitted? || CpuInferring? || CpuDone?
    }

    /** Inside a native read, compile, query or inference. Listing the devices is not modelled. */
    predicate InNativeCode() {
      Reading? || Compiling? || Querying? || Inferring? || CpuInferring?
    }

    predicate InCpuBranch() {
      CpuQueued? || CpuWait? || CpuWoken? || InCpuLane()
    }

    predicate UsesSession() {
      || RunStart? || RunDevice? || RunRecheck? || InCpuBranch() || Inferring?
      || EnsureStart? || Moving? || Rebuilding? || Publishing?
    }

    /** On the way to a GPU inference. */
    predicate WantsGpu() {
      (Queued? || LaneWait? || LaneWoken? || Entered?) && job.Infer?
    }

    /** Holding the rebuild lock of its session. */
    predicate Demoting() {
      Rebuilding? || Publishing?
    }

    function Woken(): Pc {
      match this
      case LaneWait(job) => LaneWoken(job)
      case CpuWait(session) => CpuWoken(session)
      case _ => this
    }
  }

  /** The reentrant lock under the condition. */
  datatype Lock = Lock(owner: Option<Tid>, depth: nat)

  datatype State = State(
    pcs: map<Tid, Pc>,
    lock: Lock,
    writers: int,          // _native_writers
    cpuActive: int,        // _active_cpu_inference
    disabled: bool,        // _gpu_disabled_reason is set
    failed: bool,          // _gpu_context_failed
    sessions: seq<Session>)

  /** How a step that depends on the outside world turns out. */
  datatype Outcome =
    | StartLoad(target: Device) | StartRun(session: Sid) | StartEnsure(session: Sid)
    | Ok | ContextFailure | OtherFailure | FallBack

  const FREE := Lock(None, 0)

  // ----- Steps --------------------------------------------------------------------------

  function At(s: State, t: Tid, pc: Pc): State {
    s.(pcs := s.pcs[t := pc])
  }

  function NotifyAll(pcs: map<Tid, Pc>): map<Tid, Pc> {
    map t | t in pcs :: pcs[t].Woken()
  }

  function Latch(s: State): State {
    s.(failed := true, disabled := true)
  }

  predicate NeedsLock(pc: Pc) {
    pc.Queued? || pc.LaneWoken? || pc.CpuQueued? || pc.CpuWoken? || pc.CpuDone?
  }

  predicate Enabled(s: State, t: Tid, o: Outcome) {
    && t in s.pcs
    && var pc := s.pcs[t];
    && (pc.UsesSession() ==> pc.session < |s.sessions|)
    && (pc.WantsGpu() ==> pc.job.session < |s.sessions|)
    && !pc.LaneWait? && !pc.CpuWait?
    && (NeedsLock(pc) ==> s.lock.owner == None)
    && (pc.Moving? ==> s.sessions[pc.session].rebuilder == None)
    && (pc.Idle? ==> match o
                     case StartLoad(_) => true
                     case StartRun(x) => x < |s.sessions|
                     case StartEnsure(x) => x < |s.sessions|
                     case _ => false)
  }

  function Begin(s: State, t: Tid, o: Outcome): State {
    match o
    case StartLoad(target) => At(s, t, Queued(Load(target)))
    case StartRun(x) => At(s, t, RunStart(x))
    case StartEnsure(x) => At(s, t, EnsureStart(x))
    case _ => s
  }

  /** Take the lock for the exclusive lane, or go on waiting for CPU calls. */
  function EnterLane(s: State, t: Tid, job: Job): State {
    if s.cpuActive > 0 then At(s, t, LaneWait(job))
    else At(s, t, Entered(job)).(lock := Lock(Some(t), 1))
  }

  function JoinLane(s: State, t: Tid, job: Job): State {
    EnterLane(s.(writers := s.writers + 1), t, job)
  }

  function LeaveLane(s: State, t: Tid): State {
    s.(writers := s.writers - 1, lock := FREE, pcs := NotifyAll(s.pcs)[t := Idle])
  }

  /** The body of the exclusive lane, for a model load. */
  function LoadStep(s: State, t: Tid, pc: Pc, o: Outcome): State {
    match pc
    case Entered(Load(target)) => At(s, t, if s.failed then Leaving else Reading(target))
    case Reading(target) => At(s, t, if o.Ok? then ReadDone(target) else Leaving)
    case ReadDone(target) =>
      if s.failed || (target == Gpu && s.disabled) then At(s, t, Leaving)
      else At(s, t, Compiling(target)).(lock := Lock(Some(t), 2))
    case Compiling(target) =>
      if o.Ok? then At(s, t, Querying(target)).(lock := Lock(Some(t), 1))
      else if target == Gpu && o.ContextFailure? then Latch(At(s, t, Leaving)).(lock := Lock(Some(t), 1))
      else if o.FallBack? then At(s, t, Compiling(Cpu))
      else At(s, t, Leaving).(lock := Lock(Some(t), 1))
    case Querying(target) =>
      if target == Gpu && o.ContextFailure? then Latch(At(s, t, Leaving))
      else At(s, t, Leaving).(sessions := s.sessions + [Session(target, target, false, None)])
    case _ => s
  }

  /** The body of the exclusive lane, for a GPU inference. */
  function InferStep(s: State, t: Tid, pc: Pc, o: Outcome): State
    requires pc.Entered? && pc.job.Infer? ==> pc.job.session < |s.sessions|
  {
    match pc
    case Entered(Infer(x)) => At(s, t, if s.sessions[x].ort || s.disabled then Leaving else Inferring(x))
    case Inferring(x) =>
      if o.ContextFailure? then Latch(At(s, t, Leaving)) else At(s, t, Leaving)
    case _ => s
  }

  /** `run` up to the choice of lane. */
  function RunStep(s: State, t: Tid, pc: Pc): State
    requires (pc.RunStart? || pc.RunDevice? || pc.RunRecheck?) && pc.session < |s.sessions|
  {
    var session := s.sessions[pc.session];
    match pc
    case RunStart(x) => At(s, t, if session.ort then Idle else RunDevice(x))
    case RunDevice(x) => At(s, t, if session.device == Gpu then Queued(Infer(x)) else RunRecheck(x))
    case RunRecheck(x) => At(s, t, if session.ort then Idle else CpuQueued(x))
  }

  /** Admission to the shared lane: wait for writers, then refuse a failed context. */
  function EnterCpuLane(s: State, t: Tid, x: Sid): State {
    if s.writers > 0 then At(s, t, CpuWait(x))
    else if s.failed then At(s, t, Moving(x))
    else At(s, t, CpuAdmitted(x)).(cpuActive := s.cpuActive + 1)
  }

  function LeaveCpuLane(s: State, t: Tid): State {
    s.(cpuActive := s.cpuActive - 1, pcs := NotifyAll(s.pcs)[t := Idle])
  }

  function SetSession(s: State, x: Sid, session: Session): State
    requires x < |s.sessions|
  {
    s.(sessions := s.sessions[x := session])
  }

  /** `ensure_cpu` and `_move_to_cpu`. */
  function MoveStep(s: State, t: Tid, pc: Pc, o: Outcome): State
    requires (pc.EnsureStart? || pc.Moving? || pc.Rebuilding? || pc.Publishing?) && pc.session < |s.sessions|
  {
    var x := pc.session;
    var session := s.sessions[x];
    match pc
    case EnsureStart(_) =>
      if session.ort || (session.device != Gpu && !s.failed) then At(s, t, Idle)
      else At(s, t, Moving(x)).(disabled := true)
    case Moving(_) =>
      if session.ort || (session.device != Gpu && !s.failed) then At(s, t, Idle)
      else SetSession(At(s, t, Rebuilding(x)), x, session.(rebuilder := Some(t)))
    case Rebuilding(_) =>
      if o.Ok? then SetSession(At(s, t, Publishing(x)), x, session.(ort := true))
      else SetSession(At(s, t, Idle), x, session.(rebuilder := None))
    case Publishing(_) =>
      SetSession(At(s, t, Idle), x, session.(device := Cpu, rebuilder := None))
  }

  /** One step of thread `t`. */
  function Act(s: State, t: Tid, o: Outcome): State
    requires Enabled(s, t, o)
  {
    var pc := s.pcs[t];
    match pc
    case Idle => Begin(s, t, o)
    case Queued(job) => JoinLane(s, t, job)
    case LaneWoken(job) => EnterLane(s, t, job)
    case Leaving => LeaveLane(s, t)
    case Entered(Infer(_)) => InferStep(s, t, pc, o)
    case Inferring(_) => InferStep(s, t, pc, o)
    case RunStart(_) => RunStep(s, t, pc)
    case RunDevice(_) => RunStep(s, t, pc)
    case RunRecheck(_) => RunStep(s, t, pc)
    case CpuQueued(x) => EnterCpuLane(s, t, x)
    case CpuWoken(x) => EnterCpuLane(s, t, x)
    case CpuAdmitted(x) => At(s, t, CpuInferring(x))
    case CpuInferring(x) => At(s, t, CpuDone(x))
    case CpuDone(_) => LeaveCpuLane(s, t)
    case EnsureStart(_) => MoveStep(s, t, pc, o)
    case Moving(_) => MoveStep(s, t, pc, o)
    case Rebuilding(_) => MoveStep(s, t, pc, o)
    case Publishing(_) => MoveStep(s, t, pc, o)
    case _ => LoadStep(s, t, pc, o)
  }

  // ----- The invariant ------------------------------------------------------------------

  ghost function Writers(pcs: map<Tid, Pc>): set<Tid> {
    set t | t in pcs && pcs[t].InExclusiveLane()
  }

  ghost function CpuCallers(pcs: map<Tid, Pc>): set<Tid> {
    set t | t in pcs && pcs[t].InCpuLane()
  }

  /** The lock is held exactly by the thread in a lane body, and only the compile nests it. */
  ghost predicate LockInv(s: State) {
    && (forall t :: t in s.pcs && s.pcs[t].InBody() ==> s.lock.owner == Some(t))
    && (s.lock.owner.Some? ==> s.lock.owner.value in s.pcs && s.pcs[s.lock.owner.value].InBody())
    && s.lock.depth == (if s.lock.owner == None then 0
                        else if s.pcs[s.lock.owner.value].Compiling? then 2 else 1)
  }

  ghost predicate CountInv(s: State) {
    && s.writers == |Writers(s.pcs)|
    && s.cpuActive == |CpuCallers(s.pcs)|
    && (s.lock.owner.Some? ==> s.cpuActive == 0)
    && (s.failed ==> s.disabled && s.cpuActive == 0)
  }

  /** What a thread may rely on at each point. */
  ghost predicate ThreadOk(s: State, pc: Pc) {
    && (pc.LaneWait? ==> s.cpuActive > 0)
    && (pc.CpuWait? ==> s.writers > 0)
    && (pc.InNativeCode() || pc.CpuAdmitted? ==> !s.failed)
    && (pc.WantsGpu() ==> pc.job.session < |s.sessions| && s.sessions[pc.job.session].origin == Gpu)
    && (pc.UsesSession() ==> pc.session < |s.sessions|)
    && (pc.InCpuBranch() ==> s.sessions[pc.session].origin != Gpu)
    && (pc.RunRecheck? && s.sessions[pc.session].origin == Gpu ==> s.sessions[pc.session].ort)
    && (pc.Inferring? ==> s.sessions[pc.session].origin == Gpu)
    && (pc.Publishing? ==> s.sessions[pc.session].ort)
  }

  ghost predicate SessionOk(s: State, x: Sid)
    requires x < |s.sessions|
  {
    var session := s.sessions[x];
    && (session.origin == Gpu && session.device != Gpu ==> session.ort)
    && (session.device == Gpu ==> session.origin == Gpu)
    && (session.rebuilder.Some? ==>
          && session.rebuilder.value in s.pcs
          && s.pcs[session.rebuilder.value].Demoting() && s.pcs[session.rebuilder.value].session == x)
  }

  ghost predicate RebuildersOk(s: State) {
    && (forall x :: 0 <= x < |s.sessions| ==> SessionOk(s, x))
    && (forall t :: t in s.pcs && s.pcs[t].Demoting() ==>
          s.pcs[t].session < |s.sessions| && s.sessions[s.pcs[t].session].rebuilder == Some(t))
  }

  ghost predicate Inv(s: State) {
    && LockInv(s) && CountInv(s) && RebuildersOk(s)
    && forall t :: t in s.pcs ==> ThreadOk(s, s.pcs[t])
  }

  lemma CountAfterMove(before: set<Tid>, after: set<Tid>, t: Tid)
    requires before - {t} == after - {t}
    ensures |after| + (if t in before then 1 else 0) == |before| + (if t in after then 1 else 0)
  {
    assert before == (before - {t}) + (if t in before then {t} else {});
    assert after == (after - {t}) + (if t in after then {t} else {});
  }

  lemma CountsAfterMove(pcs: map<Tid, Pc>, t: Tid, pc: Pc)
    requires t in pcs
    ensures |Writers(pcs[t := pc])| + (if pcs[t].InExclusiveLane() then 1 else 0)
         == |Writers(pcs)| + (if pc.InExclusiveLane() then 1 else 0)
    ensures |CpuCallers(pcs[t := pc])| + (if pcs[t].InCpuLane() then 1 else 0)
         == |CpuCallers(pcs)| + (if pc.InCpuLane() then 1 else 0)
  {
    CountAfterMove(Writers(pcs), Writers(pcs[t := pc]), t);
    CountAfterMove(CpuCallers(pcs), CpuCallers(pcs[t := pc]), t);
  }

  lemma CountsAfterNotify(pcs: map<Tid, Pc>)
    ensures Writers(NotifyAll(pcs)) == Writers(pcs)
    ensures CpuCallers(NotifyAll(pcs)) == CpuCallers(pcs)
  {
  }

  /** A step of `t` moves no other thread, except to wake it. */
  ghost predicate OthersStay(pcs: map<Tid, Pc>, pcs': map<Tid, Pc>, t: Tid) {
    && pcs'.Keys == pcs.Keys
    && forall u :: u in pcs' && u != t ==> pcs'[u] == pcs[u] || pcs'[u] == pcs[u].Woken()
  }

  /** What the other threads rely on survives a step of `t` from `s` to `s'`. */
  ghost predicate Undisturbed(s: State, s': State, t: Tid) {
    && OthersStay(s.pcs, s'.pcs, t)
    && (s'.cpuActive >= s.cpuActive || forall u :: u in s'.pcs ==> !s'.pcs[u].LaneWait?)
    && (s'.writers >= s.writers || forall u :: u in s'.pcs ==> !s'.pcs[u].CpuWait?)
    && (s'.failed && !s.failed ==>
          forall u :: u in s'.pcs && u != t ==> !s'.pcs[u].InNativeCode() && !s'.pcs[u].CpuAdmitted?)
    && |s'.sessions| >= |s.sessions|
    && (forall x :: 0 <= x < |s.sessions| ==>
          s'.sessions[x].origin == s.sessions[x].origin && (s.sessions[x].ort ==> s'.sessions[x].ort))
  }

  /** A thread that only moves on, waking nobody and lowering no counter, disturbs nobody. */
  lemma MovingOnDisturbsNobody(s: State, s': State, t: Tid)
    requires t in s.pcs && t in s'.pcs && s'.pcs == s.pcs[t := s'.pcs[t]]
    requires s'.cpuActive >= s.cpuActive && s'.writers >= s.writers
    requires s'.failed == s.failed && s'.sessions == s.sessions
    ensures Undisturbed(s, s', t) && OthersStay(s.pcs, s'.pcs, t)
  {
  }

  lemma OtherThreadsStayOk(s: State, s': State, t: Tid)
    requires Undisturbed(s, s', t) && t in s.pcs
    requires forall u :: u in s.pcs && u != t ==> ThreadOk(s, s.pcs[u])
    requires ThreadOk(s', s'.pcs[t])
    ensures forall u :: u in s'.pcs ==> ThreadOk(s', s'.pcs[u])
  {
    forall u | u in s'.pcs && u != t
      ensures ThreadOk(s', s'.pcs[u])
    {
      assert ThreadOk(s, s.pcs[u]);
    }
  }

  /** A step that takes no part in a demotion leaves the rebuild locks and the devices alone. */
  lemma RebuildersStayOk(s: State, s': State, t: Tid)
    requires RebuildersOk(s) && OthersStay(s.pcs, s'.pcs, t) && t in s.pcs
    requires !s.pcs[t].Demoting() && !s'.pcs[t].Demoting()
    requires s.sessions <= s'.sessions
    requires forall x :: |s.sessions| <= x < |s'.sessions| ==>
               s'.sessions[x].origin == s'.sessions[x].device && s'.sessions[x].rebuilder == None
    ensures RebuildersOk(s')
  {
    forall x | 0 <= x < |s'.sessions|
      ensures SessionOk(s', x)
    {
      if x < |s.sessions| {
        assert SessionOk(s, x) && s'.sessions[x] == s.sessions[x];
      }
    }
    forall u | u in s'.pcs && s'.pcs[u].Demoting()
      ensures s'.pcs[u].session < |s'.sessions| && s'.sessions[s'.pcs[u].session].rebuilder == Some(u)
    {
      assert s.pcs[u] == s'.pcs[u];
    }
  }

  /** While a thread is in a lane body, nobody else is in native code. */
  lemma AloneInBody(s: State, t: Tid)
    requires LockInv(s) && CountInv(s) && t in s.pcs && s.pcs[t].InBody()
    ensures forall u :: u in s.pcs && u != t ==> !s.pcs[u].InBody() && !s.pcs[u].InCpuLane()
  {
    forall u | u in s.pcs && u != t
      ensures !s.pcs[u].InBody() && !s.pcs[u].InCpuLane()
    {
      assert u !in CpuCallers(s.pcs);
    }
  }

  /** A step of `t` that only moves its program counter and the shared flags. */
  lemma StepKeeps(s: State, s': State, t: Tid)
    requires Inv(s) && t in s.pcs && t in s'.pcs && s'.pcs == s.pcs[t := s'.pcs[t]]
    requires Undisturbed(s, s', t) && ThreadOk(s', s'.pcs[t])
    requires !s.pcs[t].Demoting() && !s'.pcs[t].Demoting()
    requires s.sessions <= s'.sessions
    requires forall x :: |s.sessions| <= x < |s'.sessions| ==>
               s'.sessions[x].origin == s'.sessions[x].device && s'.sessions[x].rebuilder == None
    requires s.pcs[t].InExclusiveLane() == s'.pcs[t].InExclusiveLane() && s'.writers == s.writers
    requires s.pcs[t].InCpuLane() == s'.pcs[t].InCpuLane() && s'.cpuActive == s.cpuActive
    requires LockInv(s') && (s'.failed ==> s'.disabled && s'.cpuActive == 0)
    requires s'.lock.owner.Some? ==> s'.cpuActive == 0
    ensures Inv(s')
  {
    hide RebuildersOk;
    CountsAfterMove(s.pcs, t, s'.pcs[t]);
    OtherThreadsStayOk(s, s', t);
    RebuildersStayOk(s, s', t);
  }

  /** A step of `t` outside the lanes, or between two points of the shared lane. */
  lemma MoveKeeps(s: State, t: Tid, pc: Pc)
    requires Inv(s) && t in s.pcs && ThreadOk(s, pc)
    requires !s.pcs[t].InExclusiveLane() && !pc.InExclusiveLane()
    requires s.pcs[t].InCpuLane() == pc.InCpuLane()
    requires !s.pcs[t].Demoting() && !pc.Demoting()
    ensures Inv(At(s, t, pc))
  {
    MovingOnDisturbsNobody(s, At(s, t, pc), t);
    StepKeeps(s, At(s, t, pc), t);
  }

  lemma BeginKeeps(s: State, t: Tid, o: Outcome)
    requires Inv(s) && Enabled(s, t, o) && s.pcs[t].Idle?
    ensures Inv(Begin(s, t, o))
  {
    hide Inv;
    MoveKeeps(s, t, Begin(s, t, o).pcs[t]);
  }

  lemma SessionIsOk(s: State, t: Tid)
    requires Inv(s) && t in s.pcs && s.pcs[t].UsesSession()
    ensures ThreadOk(s, s.pcs[t]) && s.pcs[t].session < |s.sessions| && SessionOk(s, s.pcs[t].session)
  {
  }

  lemma RunStepKeeps(s: State, t: Tid)
    requires Inv(s) && t in s.pcs && (s.pcs[t].RunStart? || s.pcs[t].RunDevice? || s.pcs[t].RunRecheck?)
    ensures Inv(RunStep(s, t, s.pcs[t]))
  {
    hide Inv, RebuildersOk;
    SessionIsOk(s, t);
    MoveKeeps(s, t, RunStep(s, t, s.pcs[t]).pcs[t]);
  }

  lemma CpuCallKeeps(s: State, t: Tid, pc: Pc)
    requires Inv(s) && t in s.pcs
    requires (s.pcs[t].CpuAdmitted? && pc == CpuInferring(s.pcs[t].session))
          || (s.pcs[t].CpuInferring? && pc == CpuDone(s.pcs[t].session))
    ensures Inv(At(s, t, pc))
  {
    MoveKeeps(s, t, pc);
  }

  /** A step inside a lane body: a new place, perhaps the latch, perhaps a new session. */
  ghost function BodyStep(s: State, t: Tid, pc: Pc, latch: bool, extra: seq<Session>): State {
    s.(pcs := s.pcs[t := pc], lock := Lock(Some(t), if pc.Compiling? then 2 else 1),
       failed := s.failed || latch, disabled := s.disabled || latch, sessions := s.sessions + extra)
  }

  lemma BodyStepKeeps(s: State, t: Tid, pc: Pc, latch: bool, extra: seq<Session>)
    requires Inv(s) && t in s.pcs && s.pcs[t].InBody() && pc.InBody()
    requires ThreadOk(BodyStep(s, t, pc, latch, extra), pc)
    requires forall x :: 0 <= x < |extra| ==> extra[x].origin == extra[x].device && extra[x].rebuilder == None
    ensures Inv(BodyStep(s, t, pc, latch, extra))
  {
    AloneInBody(s, t);
    StepKeeps(s, BodyStep(s, t, pc, latch, extra), t);
  }

  lemma BodyHasTheLock(s: State, t: Tid)
    requires Inv(s) && t in s.pcs && s.pcs[t].InBody()
    ensures ThreadOk(s, s.pcs[t]) && s.lock == Lock(Some(t), if s.pcs[t].Compiling? then 2 else 1)
    ensures s.failed ==> s.disabled
  {
  }

  /** A step between two points of a lane body. */
  lemma BodyMoveKeeps(s: State, t: Tid, pc: Pc)
    requires Inv(s) && t in s.pcs && s.pcs[t].InBody() && !s.pcs[t].Compiling? && pc.InBody() && ThreadOk(s, pc)
    ensures Inv(if pc.Compiling? then At(s, t, pc).(lock := Lock(Some(t), 2)) else At(s, t, pc))
  {
    hide Inv;
    BodyHasTheLock(s, t);
    assert s.sessions + [] == s.sessions;
    BodyStepKeeps(s, t, pc, false, []);
  }

  lemma LoadStepKeeps(s: State, t: Tid, o: Outcome)
    requires Inv(s) && t in s.pcs
    requires s.pcs[t].Reading? || s.pcs[t].ReadDone? || (s.pcs[t].Entered? && s.pcs[t].job.Load?)
    ensures Inv(LoadStep(s, t, s.pcs[t], o))
  {
    hide Inv;
    BodyHasTheLock(s, t);
    BodyMoveKeeps(s, t, LoadStep(s, t, s.pcs[t], o).pcs[t]);
  }

  lemma CompileStepKeeps(s: State, t: Tid, o: Outcome)
    requires Inv(s) && t in s.pcs && s.pcs[t].Compiling?
    ensures Inv(LoadStep(s, t, s.pcs[t], o))
  {
    hide Inv;
    BodyHasTheLock(s, t);
    assert s.sessions + [] == s.sessions;
    BodyStepKeeps(s, t, LoadStep(s, t, s.pcs[t], o).pcs[t],
                  o.ContextFailure? && s.pcs[t] == Compiling(Gpu), []);
  }

  lemma QueryStepKeeps(s: State, t: Tid, o: Outcome)
    requires Inv(s) && t in s.pcs && s.pcs[t].Querying?
    ensures Inv(LoadStep(s, t, s.pcs[t], o))
  {
    hide Inv;
    BodyHasTheLock(s, t);
    var target := s.pcs[t].target;
    if target == Gpu && o.ContextFailure? {
      assert s.sessions + [] == s.sessions;
      BodyStepKeeps(s, t, Leaving, true, []);
    } else {
      BodyStepKeeps(s, t, Leaving, false, [Session(target, target, false, None)]);
    }
  }

  lemma InferStepKeeps(s: State, t: Tid, o: Outcome)
    requires Inv(s) && t in s.pcs
    requires s.pcs[t].Inferring? || (s.pcs[t].Entered? && s.pcs[t].job.Infer?)
    ensures Inv(InferStep(s, t, s.pcs[t], o))
  {
    hide Inv;
    BodyHasTheLock(s, t);
    var s' := InferStep(s, t, s.pcs[t], o);
    assert s.sessions + [] == s.sessions;
    BodyStepKeeps(s, t, s'.pcs[t], s.pcs[t].Inferring? && o.ContextFailure?, []);
  }

  /** The invariant but for a writer that has counted itself and not yet moved. */
  ghost predicate JoiningInv(s: State, t: Tid, job: Job) {
    && t in s.pcs && (s.pcs[t] == Queued(job) || s.pcs[t] == LaneWoken(job))
    && LockInv(s) && RebuildersOk(s) && s.lock.owner == None && s.cpuActive == |CpuCallers(s.pcs)|
    && (s.failed ==> s.disabled && s.cpuActive == 0)
    && s.writers == |Writers(s.pcs)| + (if s.pcs[t].Queued? then 1 else 0)
    && forall u :: u in s.pcs ==> ThreadOk(s, s.pcs[u])
  }

  lemma EnterLaneWaits(s: State, t: Tid, job: Job)
    requires JoiningInv(s, t, job) && s.cpuActive > 0
    ensures Inv(At(s, t, LaneWait(job)))
  {
    hide RebuildersOk, Undisturbed, OthersStay;
    var s' := At(s, t, LaneWait(job));
    MovingOnDisturbsNobody(s, s', t);
    CountsAfterMove(s.pcs, t, LaneWait(job));
    OtherThreadsStayOk(s, s', t);
    RebuildersStayOk(s, s', t);
  }

  lemma EnterLaneEnters(s: State, t: Tid, job: Job)
    requires JoiningInv(s, t, job) && s.cpuActive == 0
    ensures Inv(At(s, t, Entered(job)).(lock := Lock(Some(t), 1)))
  {
    hide RebuildersOk, Undisturbed, OthersStay;
    var s' := At(s, t, Entered(job)).(lock := Lock(Some(t), 1));
    MovingOnDisturbsNobody(s, s', t);
    CountsAfterMove(s.pcs, t, Entered(job));
    OtherThreadsStayOk(s, s', t);
    RebuildersStayOk(s, s', t);
  }

  lemma EnterLaneKeeps(s: State, t: Tid, job: Job)
    requires JoiningInv(s, t, job)
    ensures Inv(EnterLane(s, t, job))
  {
    if s.cpuActive > 0 {
      EnterLaneWaits(s, t, job);
    } else {
      EnterLaneEnters(s, t, job);
    }
  }

  lemma WokenStepKeeps(s: State, t: Tid)
    requires Inv(s) && t in s.pcs && s.pcs[t].LaneWoken? && s.lock.owner == None
    ensures Inv(EnterLane(s, t, s.pcs[t].job))
  {
    hide RebuildersOk;
    EnterLaneKeeps(s, t, s.pcs[t].job);
  }

  lemma JoinLaneKeeps(s: State, t: Tid)
    requires Inv(s) && t in s.pcs && s.pcs[t].Queued? && s.lock.owner == None
    ensures Inv(JoinLane(s, t, s.pcs[t].job))
  {
    var counted := s.(writers := s.writers + 1);
    OtherThreadsStayOk(s, counted, t);
    forall x | 0 <= x < |s.sessions| ensures SessionOk(counted, x) { assert SessionOk(s, x); }
    EnterLaneKeeps(counted, t, s.pcs[t].job);
  }

  lemma NotifyLeavesNoWaiter(s: State, s': State, t: Tid)
    requires t in s.pcs && s'.pcs == NotifyAll(s.pcs)[t := Idle]
    requires s'.sessions == s.sessions && s'.failed == s.failed
    ensures Undisturbed(s, s', t)
  {
    assert s'.pcs.Keys == s.pcs.Keys;
  }

  lemma NotifyKeepsThreads(s: State, s': State, t: Tid)
    requires t in s.pcs && s'.pcs == NotifyAll(s.pcs)[t := Idle]
    requires s'.sessions == s.sessions && s'.failed == s.failed
    requires forall u :: u in s.pcs ==> ThreadOk(s, s.pcs[u])
    ensures forall u :: u in s'.pcs ==> ThreadOk(s', s'.pcs[u])
  {
    NotifyLeavesNoWaiter(s, s', t);
    OtherThreadsStayOk(s, s', t);
  }

  lemma NotifyKeepsRebuilders(s: State, s': State, t: Tid)
    requires t in s.pcs && s'.pcs == NotifyAll(s.pcs)[t := Idle] && !s.pcs[t].Demoting()
    requires s'.sessions == s.sessions && RebuildersOk(s)
    ensures RebuildersOk(s')
  {
    NotifyLeavesNoWaiter(s, s'.(failed := s.failed), t);
    RebuildersStayOk(s, s', t);
  }

  /** Once every waiter is woken, only the counters have to be right again. */
  lemma NotifyKeeps(s: State, s': State, t: Tid)
    requires Inv(s) && t in s.pcs && s'.pcs == NotifyAll(s.pcs)[t := Idle] && !s.pcs[t].Demoting()
    requires s'.sessions == s.sessions && s'.failed == s.failed && s'.disabled == s.disabled && s'.lock == FREE
    requires s'.writers + (if s.pcs[t].InExclusiveLane() then 1 else 0) == s.writers
    requires s'.cpuActive + (if s.pcs[t].InCpuLane() then 1 else 0) == s.cpuActive
    requires s.lock.owner == None || s.lock.owner == Some(t)
    ensures Inv(s')
  {
    NotifyCounts(s, s', t);
    NotifyFreesLock(s, s', t);
    NotifyKeepsThreads(s, s', t);
    NotifyKeepsRebuilders(s, s', t);
  }

  lemma NotifyFreesLock(s: State, s': State, t: Tid)
    requires LockInv(s) && t in s.pcs && s'.pcs == NotifyAll(s.pcs)[t := Idle] && s'.lock == FREE
    requires s.lock.owner == None || s.lock.owner == Some(t)
    ensures LockInv(s')
  {
    forall u | u in s'.pcs
      ensures !s'.pcs[u].InBody()
    {
      assert u != t ==> s'.pcs[u] == s.pcs[u].Woken() && !s.pcs[u].InBody();
    }
  }

  lemma NotifyCounts(s: State, s': State, t: Tid)
    requires CountInv(s) && t in s.pcs && s'.pcs == NotifyAll(s.pcs)[t := Idle]
    requires s'.writers + (if s.pcs[t].InExclusiveLane() then 1 else 0) == s.writers
    requires s'.cpuActive + (if s.pcs[t].InCpuLane() then 1 else 0) == s.cpuActive
    requires s'.failed == s.failed && s'.disabled == s.disabled && s'.lock == FREE
    ensures CountInv(s')
  {
    CountsAfterNotify(s.pcs);
    CountsAfterMove(NotifyAll(s.pcs), t, Idle);
  }

  lemma LeaveLaneKeeps(s: State, t: Tid)
    requires Inv(s) && t in s.pcs && s.pcs[t].Leaving?
    ensures Inv(LeaveLane(s, t))
  {
    NotifyKeeps(s, LeaveLane(s, t), t);
  }

  lemma LeaveCpuLaneKeeps(s: State, t: Tid)
    requires Inv(s) && t in s.pcs && s.pcs[t].CpuDone? && s.lock.owner == None
    ensures Inv(LeaveCpuLane(s, t))
  {
    NotifyKeeps(s, LeaveCpuLane(s, t), t);
  }

  lemma AdmitKeeps(s: State, t: Tid)
    requires Inv(s) && t in s.pcs && (s.pcs[t].CpuQueued? || s.pcs[t].CpuWoken?) && s.lock.owner == None
    requires !s.failed
    ensures Inv(At(s, t, CpuAdmitted(s.pcs[t].session)).(cpuActive := s.cpuActive + 1))
  {
    hide RebuildersOk, Undisturbed, OthersStay;
    var s' := At(s, t, CpuAdmitted(s.pcs[t].session)).(cpuActive := s.cpuActive + 1);
    MovingOnDisturbsNobody(s, s', t);
    CountsAfterMove(s.pcs, t, s'.pcs[t]);
    OtherThreadsStayOk(s, s', t);
    RebuildersStayOk(s, s', t);
  }

  lemma EnterCpuLaneKeeps(s: State, t: Tid)
    requires Inv(s) && t in s.pcs && (s.pcs[t].CpuQueued? || s.pcs[t].CpuWoken?) && s.lock.owner == None
    ensures Inv(EnterCpuLane(s, t, s.pcs[t].session))
  {
    var x := s.pcs[t].session;
    if s.writers > 0 {
      MoveKeeps(s, t, CpuWait(x));
    } else if s.failed {
      MoveKeeps(s, t, Moving(x));
    } else {
      AdmitKeeps(s, t);
    }
  }

  lemma DisableKeeps(s: State)
    requires Inv(s)
    ensures Inv(s.(disabled := true))
  {
    var s' := s.(disabled := true);
    forall t | t in s.pcs ensures ThreadOk(s', s'.pcs[t]) { assert ThreadOk(s, s.pcs[t]); }
    forall x | 0 <= x < |s.sessions| ensures SessionOk(s', x) { assert SessionOk(s, x); }
  }

  lemma LateMoveKeeps(s: State, t: Tid)
    requires Inv(s) && t in s.pcs && s.pcs[t].EnsureStart?
    ensures Inv(At(s, t, Moving(s.pcs[t].session)).(disabled := true))
  {
    DisableKeeps(s);
    MoveKeeps(s.(disabled := true), t, Moving(s.pcs[t].session));
  }

  lemma EnsureStepKeeps(s: State, t: Tid, o: Outcome)
    requires Inv(s) && t in s.pcs && s.pcs[t].EnsureStart?
    ensures Inv(MoveStep(s, t, s.pcs[t], o))
  {
    hide Inv;
    SessionIsOk(s, t);
    LateMoveKeeps(s, t);
    MoveKeeps(s, t, Idle);
  }

  /** What a thread may do to a session whose rebuild lock it takes, holds or releases. */
  ghost predicate RebuildStep(s: State, t: Tid, x: Sid, pc: Pc, session: Session)
    requires t in s.pcs && x < |s.sessions|
  {
    && s.sessions[x].rebuilder == (if s.pcs[t].Demoting() then Some(t) else None)
    && (s.pcs[t].Demoting() ==> s.pcs[t].session == x)
    && session.rebuilder == (if pc.Demoting() then Some(t) else None)
    && (pc.Demoting() ==> pc.session == x)
    && session.origin == s.sessions[x].origin && (s.sessions[x].ort ==> session.ort)
    && (session.origin == Gpu && session.device != Gpu ==> session.ort)
    && (session.device == Gpu ==> session.origin == Gpu)
  }

  lemma RebuildKeepsLocks(s: State, t: Tid, x: Sid, pc: Pc, session: Session)
    requires RebuildersOk(s) && t in s.pcs && x < |s.sessions| && RebuildStep(s, t, x, pc, session)
    ensures RebuildersOk(SetSession(At(s, t, pc), x, session))
  {
    var s' := SetSession(At(s, t, pc), x, session);
    forall y | 0 <= y < |s'.sessions|
      ensures SessionOk(s', y)
    {
      assert SessionOk(s, y);
    }
    forall u | u in s'.pcs && s'.pcs[u].Demoting()
      ensures s'.pcs[u].session < |s'.sessions| && s'.sessions[s'.pcs[u].session].rebuilder == Some(u)
    {
      assert u != t ==> s.sessions[s.pcs[u].session].rebuilder == Some(u);
    }
  }

  lemma RebuildStepKeeps(s: State, t: Tid, x: Sid, pc: Pc, session: Session)
    requires Inv(s) && t in s.pcs && x < |s.sessions| && RebuildStep(s, t, x, pc, session)
    requires ThreadOk(SetSession(s, x, session), pc)
    requires !s.pcs[t].InExclusiveLane() && !pc.InExclusiveLane() && !s.pcs[t].InCpuLane() && !pc.InCpuLane()
    ensures Inv(SetSession(At(s, t, pc), x, session))
  {
    hide RebuildersOk;
    CountsAfterMove(s.pcs, t, pc);
    OtherThreadsStayOk(s, SetSession(At(s, t, pc), x, session), t);
    RebuildKeepsLocks(s, t, x, pc, session);
  }

  lemma MovingStepKeeps(s: State, t: Tid, o: Outcome)
    requires Inv(s) && Enabled(s, t, o) && s.pcs[t].Moving?
    ensures Inv(MoveStep(s, t, s.pcs[t], o))
  {
    var x := s.pcs[t].session;
    var session := s.sessions[x];
    hide Inv;
    SessionIsOk(s, t);
    if session.ort || (session.device != Gpu && !s.failed) {
      MoveKeeps(s, t, Idle);
    } else {
      RebuildStepKeeps(s, t, x, Rebuilding(x), session.(rebuilder := Some(t)));
    }
  }

  lemma RebuildingStepKeeps(s: State, t: Tid, o: Outcome)
    requires Inv(s) && t in s.pcs && s.pcs[t].Rebuilding?
    ensures Inv(MoveStep(s, t, s.pcs[t], o))
  {
    var x := s.pcs[t].session;
    var session := s.sessions[x];
    hide Inv;
    SessionIsOk(s, t);
    if o.Ok? {
      RebuildStepKeeps(s, t, x, Publishing(x), session.(ort := true));
    } else {
      RebuildStepKeeps(s, t, x, Idle, session.(rebuilder := None));
    }
  }

  lemma PublishingStepKeeps(s: State, t: Tid, o: Outcome)
    requires Inv(s) && t in s.pcs && s.pcs[t].Publishing?
    ensures Inv(MoveStep(s, t, s.pcs[t], o))
  {
    var x := s.pcs[t].session;
    hide Inv;
    SessionIsOk(s, t);
    RebuildStepKeeps(s, t, x, Idle, s.sessions[x].(device := Cpu, rebuilder := None));
  }

  lemma ActKeeps(s: State, t: Tid, o: Outcome)
    requires Inv(s) && Enabled(s, t, o)
    ensures Inv(Act(s, t, o))
  {
    hide Inv;
    match s.pcs[t]
    case Idle => BeginKeeps(s, t, o);
    case Queued(_) => JoinLaneKeeps(s, t);
    case LaneWoken(_) => WokenStepKeeps(s, t);
    case Leaving => LeaveLaneKeeps(s, t);
    case Entered(Infer(_)) => InferStepKeeps(s, t, o);
    case Inferring(_) => InferStepKeeps(s, t, o);
    case RunStart(_) => RunStepKeeps(s, t);
    case RunDevice(_) => RunStepKeeps(s, t);
    case RunRecheck(_) => RunStepKeeps(s, t);
    case CpuQueued(_) => EnterCpuLaneKeeps(s, t);
    case CpuWoken(_) => EnterCpuLaneKeeps(s, t);
    case CpuAdmitted(x) => CpuCallKeeps(s, t, CpuInferring(x));
    case CpuInferring(x) => CpuCallKeeps(s, t, CpuDone(x));
    case CpuDone(_) => LeaveCpuLaneKeeps(s, t);
    case EnsureStart(_) => EnsureStepKeeps(s, t, o);
    case Compiling(_) => CompileStepKeeps(s, t, o);
    case Querying(_) => QueryStepKeeps(s, t, o);
    case Moving(_) => MovingStepKeeps(s, t, o);
    case Rebuilding(_) => RebuildingStepKeeps(s, t, o);
    case Publishing(_) => PublishingStepKeeps(s, t, o);
    case _ => LoadStepKeeps(s, t, o);
  }
}
