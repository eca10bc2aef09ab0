/** Retrying transactions while the database is locked (backend/app/db/retry.py:89-196). The session
    is a value the attempts pass along; what each statement does is a parameter. */
module Retry {

  datatype Outcome = Returned | Raised(locked: bool)

  // ----- The loop -----------------------------------------------------------------------

  type Attempt<!S> = (S, nat) -> (S, Outcome)

  datatype Policy<!S> = Policy(attempt: Attempt<S>, onRetry: (S, nat) -> S, canRetry: S -> bool, attempts: int)

  /** The attempt numbered `i` failed in a way that is worth another one. */
  predicate GoesOn<S>(p: Policy<S>, s: S, outcome: Outcome, i: nat) {
    outcome.Raised? && outcome.locked && i < p.attempts && p.canRetry(s)
  }

  /** What is left after the attempts from the `i`-th on, how they end, and which was the last. */
  function Retried<S>(p: Policy<S>, s: S, i: nat): (S, Outcome, nat)
    decreases p.attempts - i
  {
    var (after, outcome) := p.attempt(s, i);
    if GoesOn(p, after, outcome, i) then Retried(p, p.onRetry(after, i), i + 1) else (after, outcome, i)
  }

  function Power(n: nat): (p: nat)
    ensures p > 0
  {
    if n == 0 then 1 else 2 * Power(n - 1)
  }

  function Doubled(base: real, n: nat): real {
    base * Power(n) as real
  }

  function Jittered(pause: real, jitter: real): real {
    pause * (0.5 + jitter)
  }

  /** The pause before attempt `i + 1`: doubled each time, and jittered. */
  function Delay(base: real, jitter: nat -> real, i: nat): real
    requires i > 0
  {
    Jittered(Doubled(base, i - 1), jitter(i))
  }

  function Pauses(base: real, jitter: nat -> real, n: nat): real {
    if n == 0 then 0.0 else Pauses(base, jitter, n - 1) + Delay(base, jitter, n)
  }

  /** `retry_on_locked`. */
  method RetryOnLocked<S>(p: Policy<S>, start: S, base: real, jitter: nat -> real)
      returns (s: S, outcome: Outcome, tries: nat, slept: real)
    ensures (s, outcome, tries) == Retried(p, start, 1)
    ensures tries > 0 && slept == Pauses(base, jitter, tries - 1)
  {
    s, tries, slept := start, 1, 0.0;
    while true
      invariant tries > 0 && slept == Pauses(base, jitter, tries - 1)
      invariant Retried(p, s, tries) == Retried(p, start, 1)
      decreases p.attempts - tries
    {
      var (after, result) := p.attempt(s, tries);
      s, outcome := after, result;
      if !GoesOn(p, s, outcome, tries) {
        return;
      }
      s := p.onRetry(s, tries);
      slept := slept + Delay(base, jitter, tries);
      tries := tries + 1;
    }
  }

  /** The budget is a budget, and a bad one still means one attempt. */
  lemma {:induction false} AttemptsAreBounded<S>(p: Policy<S>, s: S, i: nat)
    requires i > 0
    ensures var tries := Retried(p, s, i).2; i <= tries && (tries <= p.attempts || tries == i)
    decreases p.attempts - i
  {
    var (after, outcome) := p.attempt(s, i);
    if GoesOn(p, after, outcome, i) {
      AttemptsAreBounded(p, p.onRetry(after, i), i + 1);
    }
  }

  /** What the attempt numbered `n` starts from, when `s` was there before the one numbered `i`. */
  function StateBefore<S>(p: Policy<S>, s: S, i: nat, n: nat): S {
    if n <= i then s else p.onRetry(p.attempt(StateBefore(p, s, i, n - 1), n - 1).0, n - 1)
  }

  lemma {:induction false} StateBeforeFromNext<S>(p: Policy<S>, s: S, i: nat, n: nat)
    requires i < n
    ensures StateBefore(p, s, i, n) == StateBefore(p, p.onRetry(p.attempt(s, i).0, i), i + 1, n)
  {
    if i + 1 < n {
      StateBeforeFromNext(p, s, i, n - 1);
    }
  }

  /** Every attempt but the last raised an error that says the database is locked, with attempts left and a
      session fit for another one; what the last one did is what the caller gets, and it lacked one of these. */
  lemma {:induction false} OnlyLockedIsRetried<S>(p: Policy<S>, s: S, i: nat, n: nat)
    requires i <= n <= Retried(p, s, i).2
    ensures var (after, outcome) := p.attempt(StateBefore(p, s, i, n), n);
            var again := outcome == Raised(true) && n < p.attempts && p.canRetry(after);
            && (n < Retried(p, s, i).2 <==> again)
            && (n == Retried(p, s, i).2 ==> Retried(p, s, i) == (after, outcome, n))
    decreases p.attempts - i
  {
    var (after, outcome) := p.attempt(s, i);
    if GoesOn(p, after, outcome, i) {
      AttemptsAreBounded(p, p.onRetry(after, i), i + 1);
      if i < n {
        OnlyLockedIsRetried(p, p.onRetry(after, i), i + 1, n);
        StateBeforeFromNext(p, s, i, n);
      }
    }
  }

  /** The pauses before `n` more attempts without jitter: they double each time. */
  function Unjittered(base: real, n: nat): real {
    base * (Power(n) - 1) as real
  }

  lemma NextPause(base: real, n: nat)
    requires base >= 0.0
    ensures Unjittered(base, n + 1) == Unjittered(base, n) + Doubled(base, n) && Doubled(base, n) >= 0.0
  {
    var p := Power(n) as real;
    assert Unjittered(base, n + 1) == base * (2.0 * p - 1.0) && Unjittered(base, n) == base * (p - 1.0);
  }

  lemma JitterIsSmall(pause: real, jitter: real)
    requires pause >= 0.0 && 0.0 <= jitter < 1.0
    ensures 0.5 * pause <= Jittered(pause, jitter) <= 1.5 * pause
  {
    ProductIsNonNegative(pause, jitter);
    ProductIsNonNegative(pause, 1.0 - jitter);
  }

  lemma ProductIsNonNegative(a: real, b: real)
    requires a >= 0.0 && b >= 0.0
    ensures a * b >= 0.0
  {
  }

  /** All the sleeping together: jitter makes it at most half as much again, and at least half as much. */
  lemma {:induction false} SleepIsBounded(base: real, jitter: nat -> real, n: nat)
    requires base >= 0.0 && forall k: nat :: 0.0 <= jitter(k) < 1.0
    ensures 0.5 * Unjittered(base, n) <= Pauses(base, jitter, n) <= 1.5 * Unjittered(base, n)
    ensures Power(n + 1) == 2 * Power(n) && Power(0) == 1
  {
    if n == 0 {
      assert Unjittered(base, 0) == base * 0.0;
    } else {
      hide Unjittered, Doubled, Jittered;
      SleepIsBounded(base, jitter, n - 1);
      NextPause(base, n - 1);
      JitterIsSmall(Doubled(base, n - 1), jitter(n));
    }
  }

  // ----- The session --------------------------------------------------------------------

  type Effect = string

  /** `active` is false from a failed flush until a rollback. */
  datatype Session = Session(committed: seq<Effect>, pending: seq<Effect>, active: bool)

  /** How one attempt's work goes: what it leaves pending, and its error, if any. */
  datatype Work = Work(effects: seq<Effect>, failure: Outcome, breaks: bool)

  /** What the environment does at each attempt. `stale` says how the error of a session that awaits
      its rollback is read; `rolledBack` says whether a rollback took effect. */
  datatype Environment = Environment(work: nat -> Work, commit: nat -> Work, stale: nat -> bool, rolledBack: nat -> bool)

  /** A failed flush loses what was pending and leaves the session waiting for its rollback. */
  function Failed(s: Session, breaks: bool): Session {
    if breaks then s.(pending := [], active := false) else s
  }

  function Commit(e: Environment, s: Session, i: nat): (Session, Outcome) {
    if !s.active then (s, Raised(e.stale(i)))
    else if e.commit(i).failure.Raised? then (Failed(s, e.commit(i).breaks), e.commit(i).failure)
    else (s.(committed := s.committed + s.pending, pending := []), Returned)
  }

  function Operate(e: Environment, s: Session, i: nat): (Session, Outcome) {
    if !s.active then (s, Raised(e.stale(i)))
    else
      var worked := s.(pending := s.pending + e.work(i).effects);
      if e.work(i).failure.Raised? then (Failed(worked, e.work(i).breaks), e.work(i).failure) else (worked, Returned)
  }

  function OperateAndCommit(e: Environment, s: Session, i: nat): (Session, Outcome) {
    var (worked, outcome) := Operate(e, s, i);
    if outcome.Raised? then (worked, outcome) else Commit(e, worked, i)
  }

  /** A rollback that fails is logged, and the retry goes ahead. */
  function Rollback(e: Environment, s: Session, i: nat): Session {
    if e.rolledBack(i) then s.(pending := [], active := true) else s
  }

  /** `write_with_retry`. */
  function Writing(e: Environment, attempts: int): Policy<Session> {
    Policy((s: Session, i: nat) => OperateAndCommit(e, s, i), (s: Session, i: nat) => Rollback(e, s, i),
           (s: Session) => true, attempts)
  }

  /** `commit_with_retry`. */
  function Committing(e: Environment, attempts: int): Policy<Session> {
    Policy((s: Session, i: nat) => Commit(e, s, i), (s: Session, i: nat) => s, (s: Session) => s.active, attempts)
  }

  const DEFAULT_ATTEMPTS: int := 4
  const DEFAULT_BASE_DELAY_S: real := 0.5

  // ----- What the callers are promised --------------------------------------------------

  /** What is pending when attempt `n` begins, when `pending` was at attempt `i`: the work of every attempt
      since the last rollback that took effect. */
  function Carried(e: Environment, pending: seq<Effect>, i: nat, n: nat): seq<Effect> {
    if n <= i then pending
    else if e.rolledBack(n - 1) then []
    else Carried(e, pending, i, n - 1) + e.work(n - 1).effects
  }

  lemma {:induction false} CarriedFromNext(e: Environment, pending: seq<Effect>, i: nat, n: nat)
    requires i < n
    ensures Carried(e, pending, i, n)
         == Carried(e, if e.rolledBack(i) then [] else pending + e.work(i).effects, i + 1, n)
  {
    if i + 1 < n {
      CarriedFromNext(e, pending, i, n - 1);
    }
  }

  /** What `WriteCommits` says, from attempt `i` on. While the session waits for its rollback, `pending`
      does not matter: nothing can be committed before a rollback has cleared it. */
  lemma {:induction false} WriteCommitsFrom(e: Environment, attempts: int, s: Session, i: nat, pending: seq<Effect>)
    requires s.active ==> s.pending == pending
    ensures var (after, outcome, tries) := Retried(Writing(e, attempts), s, i);
            && tries >= i
            && (outcome.Raised? ==>
                  && after.committed == s.committed
                  && outcome in {e.work(tries).failure, e.commit(tries).failure, Raised(e.stale(tries))})
            && (outcome.Returned? ==>
                  && e.work(tries).failure == e.commit(tries).failure == Returned
                  && after == Session(s.committed + (Carried(e, pending, i, tries) + e.work(tries).effects), [], true))
    decreases attempts - i
  {
    var (after, outcome) := OperateAndCommit(e, s, i);
    if GoesOn(Writing(e, attempts), after, outcome, i) {
      var rolled := Rollback(e, after, i);
      var next := if e.rolledBack(i) then [] else pending + e.work(i).effects;
      WriteCommitsFrom(e, attempts, rolled, i + 1, next);
      CarriedFromNext(e, pending, i, Retried(Writing(e, attempts), rolled, i + 1).2);
    }
  }

  /** Raising commits nothing, and what is raised is an error of the last attempt. Returning means that neither
      its work nor its commit failed; it commits that work, after what was still pending when the attempt began,
      and leaves nothing pending. So the work is committed alone exactly when nothing was carried over. */
  lemma WriteCommits(e: Environment, attempts: int, s: Session, i: nat)
    requires s.active
    ensures var (after, outcome, tries) := Retried(Writing(e, attempts), s, i);
            var carried := Carried(e, s.pending, i, tries);
            && (outcome.Raised? ==>
                  && after.committed == s.committed
                  && outcome in {e.work(tries).failure, e.commit(tries).failure, Raised(e.stale(tries))})
            && (outcome.Returned? ==>
                  && e.work(tries).failure == e.commit(tries).failure == Returned
                  && after == Session(s.committed + (carried + e.work(tries).effects), [], true)
                  && (after.committed == s.committed + e.work(tries).effects <==> carried == []))
  {
    WriteCommitsFrom(e, attempts, s, i, s.pending);
    var (after, outcome, tries) := Retried(Writing(e, attempts), s, i);
    var carried := Carried(e, s.pending, i, tries);
    if carried == [] {
      assert carried + e.work(tries).effects == e.work(tries).effects;
    }
    assert |s.committed + (carried + e.work(tries).effects)| == |s.committed| + |carried| + |e.work(tries).effects|;
  }

  /** When every rollback takes effect, nothing is carried into a retry: the work is committed exactly
      once. */
  lemma WriteCommitsOnce(e: Environment, attempts: int, s: Session)
    requires s.active && s.pending == [] && forall n: nat :: e.rolledBack(n)
    ensures var (after, outcome, tries) := Retried(Writing(e, attempts), s, 1);
            && (outcome.Raised? ==> after.committed == s.committed)
            && (outcome.Returned? ==> after == Session(s.committed + e.work(tries).effects, [], true))
  {
    WriteCommits(e, attempts, s, 1);
  }

  /** A rollback that fails without breaking the session lets the next attempt commit the work of the
      one before as well. */
  lemma FailedRollbackCommitsTwice()
    ensures var e := Environment(i => Work(["row"], Returned, false),
                                 i => Work([], if i == 1 then Raised(true) else Returned, false),
                                 i => true, i => false);
            Retried(Writing(e, 2), Session([], [], true), 1) == (Session(["row", "row"], [], true), Returned, 2)
  {
    var e := Environment(i => Work(["row"], Returned, false),
                         i => Work([], if i == 1 then Raised(true) else Returned, false),
                         i => true, i => false);
    var s := Session([], [], true);
    assert [] + ["row"] == ["row"] && ["row"] + ["row"] == ["row", "row"] && [] + ["row", "row"] == ["row", "row"];
    assert OperateAndCommit(e, s, 1) == (Session([], ["row"], true), Raised(true));
    assert OperateAndCommit(e, Session([], ["row"], true), 2) == (Session(["row", "row"], [], true), Returned);
  }

  /** Returning means everything that was pending is committed, however many attempts it took: an
      emptied transaction is never committed in its place. Raising commits nothing. */
  lemma {:induction false} CommitKeepsPendingWork(e: Environment, attempts: int, s: Session, i: nat)
    ensures var (after, outcome, tries) := Retried(Committing(e, attempts), s, i);
            && (outcome.Returned? ==> after == Session(s.committed + s.pending, [], true))
            && (outcome.Raised? ==>
                  && after.committed == s.committed
                  && (if after.active || !s.active then after.pending == s.pending else after.pending == []))
    decreases attempts - i
  {
    var (after, outcome) := Commit(e, s, i);
    if GoesOn(Committing(e, attempts), after, outcome, i) {
      CommitKeepsPendingWork(e, attempts, after, i + 1);
    }
  }
}
