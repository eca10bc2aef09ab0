/** Waiting for a settings change (backend/app/core/settings_service.py:669-694). Looking at the
    version and taking hold of the event is one step: nothing is awaited in between. */
module SettingsWait {
  import opened Options
  import opened Runs

  type TaskId = nat
  type EventId = nat

  datatype Waiter =
    | Checking(since: int)
    | Waiting(since: int, event: EventId)
    | Returned(since: int, version: nat)

  /** `event` is the one a new waiter would get; `signalled` are the ones already set. */
  datatype State = State(version: nat, event: EventId, signalled: set<EventId>, waiters: map<TaskId, Waiter>)

  datatype Action =
    | Bump
    | Call(task: TaskId, since: int)
    | Check(task: TaskId)
    | Wake(task: TaskId)
    | Leave(task: TaskId)                  // a timeout, a cancellation, or the caller going on

  function Initial(): State {
    State(0, 0, {}, map[])
  }

  predicate Enabled(s: State, a: Action) {
    match a
    case Bump => true
    case Call(task, _) => task !in s.waiters
    case Check(task) => task in s.waiters && s.waiters[task].Checking?
    case Wake(task) => task in s.waiters && s.waiters[task].Waiting? && s.waiters[task].event in s.signalled
    case Leave(task) => task in s.waiters
  }

  function Checked(s: State, since: int): Waiter {
    if s.version <= since then Waiting(since, s.event) else Returned(since, s.version)
  }

  function Act(s: State, a: Action): State
    requires Enabled(s, a)
  {
    match a
    case Bump => s.(version := s.version + 1, signalled := s.signalled + {s.event}, event := s.event + 1)
    case Call(task, since) => s.(waiters := s.waiters[task := Checking(since)])
    case Check(task) => s.(waiters := s.waiters[task := Checked(s, s.waiters[task].since)])
    case Wake(task) => s.(waiters := s.waiters[task := Checking(s.waiters[task].since)])
    case Leave(task) => s.(waiters := s.waiters - {task})
  }

  /** A waiter on an event not yet set still waits for a version that has not come. */
  predicate WaiterOk(s: State, w: Waiter) {
    match w
    case Checking(_) => true
    case Waiting(since, event) => event in s.signalled || (event == s.event && s.version <= since)
    case Returned(since, version) => since < version <= s.version
  }

  ghost predicate Inv(s: State) {
    && (forall e :: e in s.signalled ==> e < s.event)
    && forall task :: task in s.waiters ==> WaiterOk(s, s.waiters[task])
  }

  ghost predicate Starts(s: State) {
    s == Initial()
  }

  ghost predicate Step(s: State, a: Action, after: State) {
    Enabled(s, a) && after == Act(s, a)
  }

  ghost predicate IsRun(run: seq<State>, actions: seq<Action>) {
    IsRunOf(run, actions, Starts, Step)
  }

  lemma RunKeepsInv(run: seq<State>, actions: seq<Action>, n: nat)
    requires IsRun(run, actions) && n < |run|
    ensures Inv(run[n])
  {
    RunKeeps(run, actions, Starts, Step, Inv, n);
  }

  /** No bump is missed: once the version has passed what a task waits for, it can wake, and the
      check it then makes returns the new version. */
  lemma WaiterNeverMissesABump(run: seq<State>, actions: seq<Action>, n: nat, task: TaskId)
    requires IsRun(run, actions) && n < |run|
    requires task in run[n].waiters && run[n].waiters[task].Waiting? && run[n].version > run[n].waiters[task].since
    ensures Enabled(run[n], Wake(task))
    ensures var woken := Act(run[n], Wake(task));
            && Enabled(woken, Check(task))
            && Act(woken, Check(task)).waiters[task] == Returned(run[n].waiters[task].since, run[n].version)
  {
    RunKeepsInv(run, actions, n);
    assert WaiterOk(run[n], run[n].waiters[task]);
  }

  /** What is returned is newer than what was asked for, and was the version at some time. */
  lemma ReturnedVersionIsNewer(run: seq<State>, actions: seq<Action>, n: nat, task: TaskId)
    requires IsRun(run, actions) && n < |run| && task in run[n].waiters && run[n].waiters[task].Returned?
    ensures run[n].waiters[task].since < run[n].waiters[task].version <= run[n].version
  {
    RunKeepsInv(run, actions, n);
    assert WaiterOk(run[n], run[n].waiters[task]);
  }

  // ----- What the version and the waiters are, told from what happened ----------------------

  function Bumps(actions: seq<Action>, n: nat): nat
    requires n <= |actions|
  {
    if n == 0 then 0 else Bumps(actions, n - 1) + if actions[n - 1].Bump? then 1 else 0
  }

  /** What a task asked for when it called last, unless it has left since. */
  function AskedFor(actions: seq<Action>, n: nat, task: TaskId): Option<int>
    requires n <= |actions|
  {
    if n == 0 then None
    else
      match actions[n - 1]
      case Call(t, since) => if t == task then Some(since) else AskedFor(actions, n - 1, task)
      case Leave(t) => if t == task then None else AskedFor(actions, n - 1, task)
      case _ => AskedFor(actions, n - 1, task)
  }

  /** The version counts the bumps, and a task waits exactly from its call until it leaves, for what it then
      asked for. */
  lemma {:induction false} StateIsTold(run: seq<State>, actions: seq<Action>, n: nat, task: TaskId)
    requires IsRun(run, actions) && n < |run|
    ensures run[n].version == Bumps(actions, n)
    ensures (if task in run[n].waiters then Some(run[n].waiters[task].since) else None) == AskedFor(actions, n, task)
  {
    if n > 0 {
      StateIsTold(run, actions, n - 1, task);
      assert StepsAt(run, actions, Step, n - 1);
    }
  }
}
