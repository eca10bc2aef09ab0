/** Who is refused, and for how long (backend/app/auth/ratelimit.py:36-146). */
module RateLimitLaws {
  import opened Options
  import opened RateLimit
  import opened Runs

  // ----- Sorted buckets -----------------------------------------------------------------

  ghost predicate Sorted(b: Bucket) {
    forall j, k :: 0 <= j < k < |b| ==> b[j] <= b[k]
  }

  function Since(b: Bucket, cutoff: real): nat {
    |Prune(b, cutoff)|
  }

  /** In a sorted bucket the entries after the cutoff are a tail, so where it begins is decided by any
      index with nothing later before it. */
  lemma SinceIs(b: Bucket, cutoff: real, n: nat)
    requires Sorted(b) && n <= |b|
    requires (n < |b| ==> b[n] > cutoff) && (n > 0 ==> b[n - 1] <= cutoff)
    ensures Since(b, cutoff) == |b| - n
  {
    assert forall k :: 0 <= k < n ==> b[k] <= cutoff;
    assert forall k :: n <= k < |b| ==> b[k] > cutoff;
  }

  /** Pruning at one cutoff loses nothing that counts after a later one. */
  lemma PruneThenSince(b: Bucket, cutoff: real, later: real)
    requires Sorted(b)
    ensures Sorted(Prune(b, cutoff)) && Since(Prune(b, cutoff), later) <= Since(b, later)
    ensures cutoff <= later ==> Since(Prune(b, cutoff), later) == Since(b, later)
  {
    var first, n := FirstAfter(b, cutoff, 0), FirstAfter(b, later, 0);
    var kept := Prune(b, cutoff);
    SinceIs(b, later, n);
    if first <= n {
      SinceIs(kept, later, n - first);
    }
  }

  lemma AppendSince(b: Bucket, now: real, cutoff: real)
    requires Sorted(b) && forall k :: 0 <= k < |b| ==> b[k] <= now
    ensures Sorted(b + [now]) && Since(b + [now], cutoff) == Since(b, cutoff) + if now > cutoff then 1 else 0
  {
    var n := FirstAfter(b, cutoff, 0);
    SinceIs(b + [now], cutoff, if n == |b| && now <= cutoff then n + 1 else n);
  }

  // ----- The table never says more than happened ----------------------------------------

  /** A bucket holds no more entries after a cutoff than there were failures since the last success. */
  ghost predicate Witnessed(b: Bucket, events: seq<Event>, key: Key, cutoff: real) {
    Since(b, cutoff) <= FailuresAfter(events, key, cutoff)
  }

  ghost predicate BucketOk(b: Bucket, events: seq<Event>, key: Key, now: real) {
    && Sorted(b) && |b| <= GLOBAL_LIMIT * 4
    && (forall k :: 0 <= k < |b| ==> b[k] <= now)
    && forall cutoff: real :: Witnessed(b, events, key, cutoff)
  }

  ghost predicate Inv(hits: map<Key, Bucket>, events: seq<Event>, now: real) {
    |hits| <= MAX_KEYS && forall key :: key in hits ==> BucketOk(hits[key], events, key, now)
  }

  lemma OneMoreEvent(events: seq<Event>, e: Event, key: Key, cutoff: real)
    ensures FailuresAfter(events + [e], key, cutoff) ==
      match e
      case Failed(k, time) => FailuresAfter(events, key, cutoff) + (if k == key && time > cutoff then 1 else 0)
      case Succeeded(k) => if k == key then 0 else FailuresAfter(events, key, cutoff)
  {
    assert (events + [e])[..|events|] == events;
  }

  /** A bucket of another key is as good after the event as before. */
  lemma OtherBucketStaysOk(b: Bucket, events: seq<Event>, e: Event, key: Key, before: real, now: real)
    requires BucketOk(b, events, key, before) && before <= now
    requires e.Succeeded? ==> e.key != key
    ensures BucketOk(b, events + [e], key, now)
  {
    forall cutoff: real
      ensures Witnessed(b, events + [e], key, cutoff)
    {
      assert Witnessed(b, events, key, cutoff);
      OneMoreEvent(events, e, key, cutoff);
    }
  }

  lemma PrunedBucketOk(b: Bucket, events: seq<Event>, key: Key, now: real, cutoff: real)
    requires BucketOk(b, events, key, now)
    ensures BucketOk(Prune(b, cutoff), events, key, now)
  {
    PruneThenSince(b, cutoff, cutoff);
    forall later: real
      ensures Witnessed(Prune(b, cutoff), events, key, later)
    {
      assert Witnessed(b, events, key, later);
      PruneThenSince(b, cutoff, later);
    }
  }

  lemma AppendedBucketOk(b: Bucket, events: seq<Event>, key: Key, before: real, now: real)
    requires BucketOk(b, events, key, before) && before <= now && |b| < GLOBAL_LIMIT * 4
    ensures BucketOk(b + [now], events + [Failed(key, now)], key, now)
  {
    AppendSince(b, now, now);
    forall cutoff: real
      ensures Witnessed(b + [now], events + [Failed(key, now)], key, cutoff)
    {
      assert Witnessed(b, events, key, cutoff);
      AppendSince(b, now, cutoff);
      OneMoreEvent(events, Failed(key, now), key, cutoff);
    }
  }

  lemma EmptyBucketOk(events: seq<Event>, key: Key, now: real)
    ensures BucketOk([], events, key, now)
  {
    assert forall cutoff: real :: Witnessed([], events, key, cutoff);
  }

  lemma RecordedBucketOk(hits: map<Key, Bucket>, events: seq<Event>, before: real, key: Key, now: real)
    requires Inv(hits, events, before) && before <= now
    ensures BucketOk(Recorded(hits, key, now)[key], events + [Failed(key, now)], key, now)
  {
    if key !in hits {
      EmptyBucketOk(events, key, before);
    }
    var b := BucketOf(hits, key);
    PrunedBucketOk(b, events, key, before, now - WINDOW_S);
    var pruned := Prune(b, now - WINDOW_S);
    if |pruned| < GLOBAL_LIMIT * 4 {
      AppendedBucketOk(pruned, events, key, before, now);
    } else {
      OtherBucketStaysOk(pruned, events, Failed(key, now), key, before, now);
    }
  }

  lemma RecordKeepsInv(hits: map<Key, Bucket>, events: seq<Event>, before: real, key: Key, now: real)
    requires Inv(hits, events, before) && before <= now
    ensures Inv(Recorded(hits, key, now), events + [Failed(key, now)], now)
  {
    var after := Recorded(hits, key, now);
    RecordedSize(hits, key, now);
    forall k | k in after
      ensures BucketOk(after[k], events + [Failed(key, now)], k, now)
    {
      if k == key {
        RecordedBucketOk(hits, events, before, key, now);
      } else {
        assert k in hits && after[k] == hits[k];
        OtherBucketStaysOk(hits[k], events, Failed(key, now), k, before, now);
      }
    }
  }

  lemma RecordedSize(hits: map<Key, Bucket>, key: Key, now: real)
    requires |hits| <= MAX_KEYS
    ensures |Recorded(hits, key, now)| <= MAX_KEYS
  {
    var room := if key !in hits && |hits| >= MAX_KEYS then Evicted(hits, now) else hits;
    var b := Recorded(hits, key, now)[key];
    assert room[key := b].Keys == room.Keys + {key};
    assert |room[key := b].Keys| <= |room.Keys| + if key in room then 0 else 1;
  }

  lemma SuccessKeepsInv(hits: map<Key, Bucket>, events: seq<Event>, now: real, key: Key)
    requires Inv(hits, events, now)
    ensures Inv(hits - {key}, events + [Succeeded(key)], now)
  {
    var after := hits - {key};
    assert after.Keys <= hits.Keys;
    Smaller(after.Keys, hits.Keys);
    forall k | k in after
      ensures BucketOk(after[k], events + [Succeeded(key)], k, now)
    {
      OtherBucketStaysOk(hits[k], events, Succeeded(key), k, now, now);
    }
  }

  lemma Smaller(a: set<Key>, b: set<Key>)
    requires a <= b
    ensures |a| <= |b|
  {
    assert b == a + (b - a);
  }

  lemma TidyKeepsInv(hits: map<Key, Bucket>, events: seq<Event>, before: real, key: Key, now: real)
    requires Inv(hits, events, before) && before <= now
    ensures Inv(Tidied(hits, key, now), events, now)
  {
    var after := Tidied(hits, key, now);
    assert after.Keys == hits.Keys && |after| == |after.Keys|;
    forall k | k in after
      ensures BucketOk(after[k], events, k, now)
    {
      PrunedBucketOk(hits[k], events, k, before, now - WINDOW_S);
    }
  }

  // ----- Runs ---------------------------------------------------------------------------

  /** One key of one call; `Look` is what `retry_after` and `delay_for` do to the table. */
  datatype Op = Fail(key: Key, now: real) | Succeed(key: Key, now: real) | Look(key: Key, now: real)

  datatype State = State(hits: map<Key, Bucket>, events: seq<Event>, now: real)

  function After(s: State, op: Op): State {
    match op
    case Fail(key, now) => State(Recorded(s.hits, key, now), s.events + [Failed(key, now)], now)
    case Succeed(key, now) => State(s.hits - {key}, s.events + [Succeeded(key)], now)
    case Look(key, now) => State(Tidied(s.hits, key, now), s.events, now)
  }

  ghost predicate Starts(s: State) {
    s.hits == map[] && s.events == []
  }

  /** The clock never goes back. */
  ghost predicate Step(s: State, op: Op, after: State) {
    s.now <= op.now && after == After(s, op)
  }

  ghost predicate IsRun(run: seq<State>, ops: seq<Op>) {
    IsRunOf(run, ops, Starts, Step)
  }

  lemma StepKeepsInv(s: State, op: Op)
    requires Inv(s.hits, s.events, s.now) && s.now <= op.now
    ensures var after := After(s, op); Inv(after.hits, after.events, after.now)
  {
    match op
    case Fail(key, now) => RecordKeepsInv(s.hits, s.events, s.now, key, now);
    case Look(key, now) => TidyKeepsInv(s.hits, s.events, s.now, key, now);
    case Succeed(key, now) =>
      SuccessKeepsInv(s.hits, s.events, s.now, key);
      LaterKeepsInv(s.hits - {key}, s.events + [Succeeded(key)], s.now, now);
  }

  lemma LaterKeepsInv(hits: map<Key, Bucket>, events: seq<Event>, before: real, now: real)
    requires Inv(hits, events, before) && before <= now
    ensures Inv(hits, events, now)
  {
    forall k | k in hits
      ensures BucketOk(hits[k], events, k, now)
    {
      assert BucketOk(hits[k], events, k, before);
    }
  }

  ghost predicate StateOk(s: State) {
    Inv(s.hits, s.events, s.now)
  }

  lemma RunKeepsInv(run: seq<State>, ops: seq<Op>, n: nat)
    requires IsRun(run, ops) && n < |run|
    ensures StateOk(run[n])
  {
    forall s, op, after | StateOk(s) && Step(s, op, after)
      ensures StateOk(after)
    {
      StepKeepsInv(s, op);
    }
    RunKeeps(run, ops, Starts, Step, StateOk, n);
  }

  /** A refused key failed at least that often itself, within the window and since its last success:
      nothing anybody did under another key counts. */
  lemma RefusalIsEarned(run: seq<State>, ops: seq<Op>, n: nat, key: Key, now: real)
    requires IsRun(run, ops) && n < |run| && WaitFor(run[n].hits, key, now).Some?
    ensures FailuresAfter(run[n].events, key, now - WINDOW_S) >= Limit(key) >= KEY_LIMIT
  {
    RunKeepsInv(run, ops, n);
    assert key in run[n].hits;
    assert Witnessed(run[n].hits[key], run[n].events, key, now - WINDOW_S);
  }

  // ----- When enough failures do refuse -------------------------------------------------

  function Alive(hits: map<Key, Bucket>, now: real): map<Key, Bucket> {
    map key | key in hits && !Dead(hits[key], now) :: hits[key]
  }

  /** Recording under a key that is new to the table empties it of everything but the global bucket. */
  predicate Overflows(hits: map<Key, Bucket>, key: Key, now: real) {
    key !in hits && |hits| >= MAX_KEYS && |Alive(hits, now)| >= MAX_KEYS
  }

  /** The operation forgets no live failure of the key: its bucket has room for one more, and it is not
      emptied to make room for another's. */
  predicate Spares(s: State, op: Op, key: Key) {
    op.Fail? ==>
      if op.key == key then |LiveAt(s.hits, key, op.now)| < GLOBAL_LIMIT * 4
      else key == GLOBAL || Dead(BucketOf(s.hits, key), op.now) || !Overflows(s.hits, op.key, op.now)
  }

  /** The bucket holds after the cutoff what happened after it. */
  ghost predicate Tells(b: Bucket, events: seq<Event>, key: Key, cutoff: real) {
    Since(b, cutoff) == FailuresAfter(events, key, cutoff)
  }

  /** The key's bucket is exact for every window that has not closed. */
  ghost predicate Exact(s: State, key: Key) {
    forall cutoff: real :: cutoff >= s.now - WINDOW_S ==> Tells(BucketOf(s.hits, key), s.events, key, cutoff)
  }

  lemma DeadSaysNothing(b: Bucket, now: real, cutoff: real)
    requires Sorted(b) && Dead(b, now) && cutoff >= now - WINDOW_S
    ensures Since(b, cutoff) == 0
  {
    SinceIs(b, cutoff, |b|);
  }

  lemma OtherRecorded(hits: map<Key, Bucket>, other: Key, key: Key, now: real)
    requires other != key
    ensures BucketOf(Recorded(hits, other, now), key) ==
      if other !in hits && |hits| >= MAX_KEYS && (Dead(BucketOf(hits, key), now)
                                                  || (key != GLOBAL && Overflows(hits, other, now)))
      then [] else BucketOf(hits, key)
  {
  }

  /** The bucket after one more failure. */
  function Grown(b: Bucket, now: real): Bucket {
    var live := Prune(b, now - WINDOW_S);
    if |live| < GLOBAL_LIMIT * 4 then live + [now] else live
  }

  lemma RecordedIsGrown(hits: map<Key, Bucket>, key: Key, now: real)
    ensures BucketOf(Recorded(hits, key, now), key) == Grown(BucketOf(hits, key), now)
  {
  }

  lemma FailGrows(s: State, key: Key, now: real, after: State)
    requires Step(s, Fail(key, now), after)
    ensures BucketOf(after.hits, key) == Grown(BucketOf(s.hits, key), now)
    ensures after.events == s.events + [Failed(key, now)]
  {
    RecordedIsGrown(s.hits, key, now);
  }

  lemma GrownSince(b: Bucket, now: real, cutoff: real)
    requires Sorted(b) && cutoff >= now - WINDOW_S && forall k :: 0 <= k < |b| ==> b[k] <= now
    ensures Since(Grown(b, now), cutoff) ==
      Since(b, cutoff) + if now > cutoff && |Prune(b, now - WINDOW_S)| < GLOBAL_LIMIT * 4 then 1 else 0
  {
    var live := Prune(b, now - WINDOW_S);
    PruneThenSince(b, now - WINDOW_S, cutoff);
    if |live| < GLOBAL_LIMIT * 4 {
      AppendSince(live, now, cutoff);
    }
  }

  lemma GrownTells(b: Bucket, events: seq<Event>, key: Key, now: real, cutoff: real)
    requires Sorted(b) && cutoff >= now - WINDOW_S && forall k :: 0 <= k < |b| ==> b[k] <= now
    requires Tells(b, events, key, cutoff)
    ensures Tells(Grown(b, now), events + [Failed(key, now)], key, cutoff)
       <==> now <= cutoff || |Prune(b, now - WINDOW_S)| < GLOBAL_LIMIT * 4
  {
    GrownSince(b, now, cutoff);
    OneMoreEvent(events, Failed(key, now), key, cutoff);
  }

  lemma BucketIsSorted(s: State, key: Key, now: real)
    requires StateOk(s) && s.now <= now
    ensures var b := BucketOf(s.hits, key); Sorted(b) && forall k :: 0 <= k < |b| ==> b[k] <= now
  {
    assert key in s.hits ==> BucketOk(s.hits[key], s.events, key, s.now);
  }

  lemma FailTells(s: State, key: Key, now: real, cutoff: real)
    requires StateOk(s) && s.now <= now && cutoff >= now - WINDOW_S
    requires Tells(BucketOf(s.hits, key), s.events, key, cutoff)
    ensures var after := After(s, Fail(key, now));
            Tells(BucketOf(after.hits, key), after.events, key, cutoff)
            <==> now <= cutoff || Spares(s, Fail(key, now), key)
  {
    BucketIsSorted(s, key, now);
    GrownTells(BucketOf(s.hits, key), s.events, key, now, cutoff);
    FailGrows(s, key, now, After(s, Fail(key, now)));
  }

  lemma OtherFailTells(s: State, other: Key, key: Key, now: real, cutoff: real)
    requires StateOk(s) && s.now <= now && cutoff >= now - WINDOW_S && other != key
    requires Tells(BucketOf(s.hits, key), s.events, key, cutoff) && Spares(s, Fail(other, now), key)
    ensures var after := After(s, Fail(other, now)); Tells(BucketOf(after.hits, key), after.events, key, cutoff)
  {
    var b := BucketOf(s.hits, key);
    BucketIsSorted(s, key, now);
    OneMoreEvent(s.events, Failed(other, now), key, cutoff);
    OtherRecorded(s.hits, other, key, now);
    if Dead(b, now) {
      DeadSaysNothing(b, now, cutoff);
    }
  }

  lemma OverflowForgets(s: State, other: Key, key: Key, now: real)
    requires StateOk(s) && s.now <= now && other != key
    requires Tells(BucketOf(s.hits, key), s.events, key, now - WINDOW_S) && !Spares(s, Fail(other, now), key)
    ensures var after := After(s, Fail(other, now));
            !Tells(BucketOf(after.hits, key), after.events, key, now - WINDOW_S)
  {
    var b, cutoff := BucketOf(s.hits, key), now - WINDOW_S;
    BucketIsSorted(s, key, now);
    OneMoreEvent(s.events, Failed(other, now), key, cutoff);
    OtherRecorded(s.hits, other, key, now);
    assert FirstAfter(b, cutoff, 0) < |b|;
  }

  lemma SucceedTells(s: State, other: Key, key: Key, now: real, cutoff: real)
    requires Tells(BucketOf(s.hits, key), s.events, key, cutoff)
    ensures var after := After(s, Succeed(other, now)); Tells(BucketOf(after.hits, key), after.events, key, cutoff)
  {
    OneMoreEvent(s.events, Succeeded(other), key, cutoff);
  }

  lemma LookTells(s: State, other: Key, key: Key, now: real, cutoff: real)
    requires StateOk(s) && s.now <= now && cutoff >= now - WINDOW_S
    requires Tells(BucketOf(s.hits, key), s.events, key, cutoff)
    ensures var after := After(s, Look(other, now)); Tells(BucketOf(after.hits, key), after.events, key, cutoff)
  {
    hide FailuresAfter, Prune, Sorted, StateOk;
    if other == key && key in s.hits {
      BucketIsSorted(s, key, now);
      PruneThenSince(s.hits[key], now - WINDOW_S, cutoff);
    }
  }

  lemma StepTells(s: State, op: Op, key: Key, cutoff: real)
    requires StateOk(s) && s.now <= op.now && cutoff >= op.now - WINDOW_S && Spares(s, op, key)
    requires Tells(BucketOf(s.hits, key), s.events, key, cutoff)
    ensures var after := After(s, op); Tells(BucketOf(after.hits, key), after.events, key, cutoff)
  {
    match op
    case Fail(k, now) => if k == key { FailTells(s, k, now, cutoff); } else { OtherFailTells(s, k, key, now, cutoff); }
    case Succeed(k, now) => SucceedTells(s, k, key, now, cutoff);
    case Look(k, now) => LookTells(s, k, key, now, cutoff);
  }

  /** A step keeps the key's bucket exact precisely when it spares it. */
  lemma StaysExactIff(s: State, op: Op, key: Key)
    requires StateOk(s) && Exact(s, key) && s.now <= op.now
    ensures Exact(After(s, op), key) <==> Spares(s, op, key)
  {
    var after, cutoff := After(s, op), op.now - WINDOW_S;
    if Spares(s, op, key) {
      forall cutoff: real | cutoff >= op.now - WINDOW_S
        ensures Tells(BucketOf(after.hits, key), after.events, key, cutoff)
      {
        StepTells(s, op, key, cutoff);
      }
    } else if op.key == key {
      FailTells(s, key, op.now, cutoff);
    } else {
      OverflowForgets(s, op.key, key, op.now);
    }
  }

  ghost predicate SparesAlong(run: seq<State>, ops: seq<Op>, n: nat, key: Key)
    requires n <= |ops| <= |run|
  {
    forall i :: 0 <= i < n ==> Spares(run[i], ops[i], key)
  }

  lemma {:induction false} RunStaysExact(run: seq<State>, ops: seq<Op>, n: nat, key: Key)
    requires IsRun(run, ops) && n < |run| && SparesAlong(run, ops, n, key)
    ensures Exact(run[n], key)
  {
    if n > 0 {
      RunStaysExact(run, ops, n - 1, key);
      RunKeepsInv(run, ops, n - 1);
      assert StepsAt(run, ops, Step, n - 1);
      StaysExactIff(run[n - 1], ops[n - 1], key);
    }
  }

  /** As long as every step spared the key, it is refused exactly when it has failed often enough
      within the window and since its last success. */
  lemma RefusedIffEarned(run: seq<State>, ops: seq<Op>, n: nat, key: Key, now: real)
    requires IsRun(run, ops) && n < |run| && SparesAlong(run, ops, n, key) && run[n].now <= now
    ensures WaitFor(run[n].hits, key, now).Some?
       <==> FailuresAfter(run[n].events, key, now - WINDOW_S) >= Limit(key)
  {
    RunStaysExact(run, ops, n, key);
    assert Tells(BucketOf(run[n].hits, key), run[n].events, key, now - WINDOW_S);
  }

  /** Nothing in the bucket has left the window yet. */
  lemma GrownAtTheEnd(b: Bucket, now: real)
    requires b == [] || b[0] > now - WINDOW_S
    ensures Grown(b, now) == if |b| < GLOBAL_LIMIT * 4 then b + [now] else b
  {
    assert FirstAfter(b, now - WINDOW_S, 0) == 0 && b[0..] == b;
  }

  /** With only a few keys about, recording under one leaves the others alone. */
  lemma OtherFailLeaves(s: State, other: Key, key: Key, now: real, after: State)
    requires Step(s, Fail(other, now), after) && other != key && |s.hits| < MAX_KEYS
    ensures BucketOf(after.hits, key) == BucketOf(s.hits, key)
    ensures after.events == s.events + [Failed(other, now)]
  {
    hide Prune, Evicted;
    OtherRecorded(s.hits, other, key, now);
  }

  function AllAt(n: nat, time: real): Bucket {
    seq(n, i => time)
  }

  function Capped(n: nat): nat {
    if n < GLOBAL_LIMIT * 4 then n else GLOBAL_LIMIT * 4
  }

  lemma GrownAllAt(n: nat, time: real)
    ensures Grown(AllAt(Capped(n), time), time) == AllAt(Capped(n + 1), time)
  {
    GrownAtTheEnd(AllAt(Capped(n), time), time);
  }

  /** Calls of `record_failure` for one key: each records the key and then the global bucket. The first `n`
      calls come at one instant, the others at a later one. */
  ghost predicate FailsTwice(ops: seq<Op>, key: Key, n: nat, first: real, later: real) {
    && key != GLOBAL && |ops| % 2 == 0 && 2 * n <= |ops|
    && forall i :: 0 <= i < |ops| ==>
         ops[i] == Fail(if i % 2 == 0 then key else GLOBAL, if i < 2 * n then first else later)
  }

  /** The only buckets are the key's and the global one. */
  ghost predicate TwoBuckets(s: State, key: Key) {
    s.hits.Keys <= {key, GLOBAL}
  }

  lemma TwoBucketsAreFew(s: State, key: Key)
    requires TwoBuckets(s, key)
    ensures |s.hits| < MAX_KEYS
  {
    Smaller(s.hits.Keys, {key, GLOBAL});
    assert |s.hits| == |s.hits.Keys|;
  }

  lemma FailKeepsTwoBuckets(s: State, key: Key, other: Key, now: real, after: State)
    requires TwoBuckets(s, key) && Step(s, Fail(other, now), after) && other in {key, GLOBAL}
    ensures TwoBuckets(after, key)
  {
    hide Prune, Evicted;
    TwoBucketsAreFew(s, key);
  }

  /** What one call does to either of its buckets. */
  lemma CallGrows(run: seq<State>, ops: seq<Op>, i: nat, key: Key, who: Key, now: real, cutoff: real)
    requires IsRun(run, ops) && i + 1 < |ops| && key != GLOBAL && TwoBuckets(run[i], key) && who in {key, GLOBAL}
    requires ops[i] == Fail(key, now) && ops[i + 1] == Fail(GLOBAL, now)
    ensures TwoBuckets(run[i + 2], key) && BucketOf(run[i + 2].hits, who) == Grown(BucketOf(run[i].hits, who), now)
    ensures FailuresAfter(run[i + 2].events, who, cutoff) ==
            FailuresAfter(run[i].events, who, cutoff) + if now > cutoff then 1 else 0
  {
    hide Step, Recorded, Grown, FailuresAfter, TwoBuckets;
    assert Step(run[i], ops[i], run[i + 1]) && Step(run[i + 1], ops[i + 1], run[i + 2]) by {
      assert StepsAt(run, ops, Step, i) && StepsAt(run, ops, Step, i + 1);
    }
    FailKeepsTwoBuckets(run[i], key, key, now, run[i + 1]);
    FailKeepsTwoBuckets(run[i + 1], key, GLOBAL, now, run[i + 2]);
    if who == key {
      FailGrows(run[i], key, now, run[i + 1]);
      TwoBucketsAreFew(run[i + 1], key);
      OtherFailLeaves(run[i + 1], GLOBAL, who, now, run[i + 2]);
    } else {
      TwoBucketsAreFew(run[i], key);
      OtherFailLeaves(run[i], key, who, now, run[i + 1]);
      FailGrows(run[i + 1], GLOBAL, now, run[i + 2]);
    }
    OneMoreEvent(run[i].events, Failed(key, now), who, cutoff);
    OneMoreEvent(run[i + 1].events, Failed(GLOBAL, now), who, cutoff);
  }

  lemma RunStartsEmpty(run: seq<State>, ops: seq<Op>, key: Key, who: Key, cutoff: real)
    requires IsRun(run, ops)
    ensures TwoBuckets(run[0], key) && BucketOf(run[0].hits, who) == []
    ensures FailuresAfter(run[0].events, who, cutoff) == 0
  {
  }

  /** After `j` of the first calls. */
  lemma {:induction false} FilledUp(run: seq<State>, ops: seq<Op>, key: Key, who: Key, n: nat, first: real, later: real,
                                    j: nat, cutoff: real)
    requires IsRun(run, ops) && FailsTwice(ops, key, n, first, later) && who in {key, GLOBAL}
    requires j <= n && first <= cutoff
    ensures TwoBuckets(run[2 * j], key) && BucketOf(run[2 * j].hits, who) == AllAt(Capped(j), first)
    ensures FailuresAfter(run[2 * j].events, who, cutoff) == 0
  {
    hide IsRun, TwoBuckets, Grown, FailuresAfter;
    if j == 0 {
      RunStartsEmpty(run, ops, key, who, cutoff);
    } else {
      FilledUp(run, ops, key, who, n, first, later, j - 1, cutoff);
      CallGrows(run, ops, 2 * (j - 1), key, who, first, cutoff);
      GrownAllAt(j - 1, first);
    }
  }

  /** After `j` calls, `n` of them the first ones. */
  lemma {:induction false} StaysFull(run: seq<State>, ops: seq<Op>, key: Key, who: Key, n: nat, first: real, later: real,
                                     j: nat, cutoff: real)
    requires IsRun(run, ops) && FailsTwice(ops, key, n, first, later) && who in {key, GLOBAL}
    requires n <= j && 2 * j <= |ops| && n >= GLOBAL_LIMIT * 4 && first <= cutoff < later < first + WINDOW_S
    ensures TwoBuckets(run[2 * j], key) && BucketOf(run[2 * j].hits, who) == AllAt(GLOBAL_LIMIT * 4, first)
    ensures FailuresAfter(run[2 * j].events, who, cutoff) == j - n
  {
    hide IsRun, TwoBuckets, Grown, FailuresAfter;
    if j == n {
      FilledUp(run, ops, key, who, n, first, later, n, cutoff);
    } else {
      StaysFull(run, ops, key, who, n, first, later, j - 1, cutoff);
      CallGrows(run, ops, 2 * (j - 1), key, who, later, cutoff);
      GrownAtTheEnd(AllAt(GLOBAL_LIMIT * 4, first), later);
    }
  }

  /** A full bucket drops the newest failures. After 240 calls or more at one instant (0 s), however many at a
      later one (899 s) leave the window empty once the first have left it (901 s), for the key and for the
      global bucket. */
  lemma FullBucketForgets(run: seq<State>, ops: seq<Op>, key: Key, who: Key, n: nat, first: real, later: real, now: real)
    requires IsRun(run, ops) && FailsTwice(ops, key, n, first, later) && who in {key, GLOBAL}
    requires n >= GLOBAL_LIMIT * 4 && later < first + WINDOW_S <= now < later + WINDOW_S
    ensures FailuresAfter(run[|ops|].events, who, now - WINDOW_S) == |ops| / 2 - n
    ensures LiveAt(run[|ops|].hits, who, now) == [] && WaitFor(run[|ops|].hits, who, now).None?
  {
    hide IsRun, FailuresAfter;
    StaysFull(run, ops, key, who, n, first, later, |ops| / 2, now - WINDOW_S);
    SinceIs(AllAt(GLOBAL_LIMIT * 4, first), now - WINDOW_S, GLOBAL_LIMIT * 4);
  }

  // ----- How long a refusal lasts -------------------------------------------------------

  /** The live entry whose end lets the key in again. */
  function Deciding(live: Bucket, key: Key): real
    requires |live| >= Limit(key)
  {
    live[|live| - Limit(key)]
  }

  /** With nothing new recorded, the key is refused until that entry leaves the window. */
  lemma RefusedUntil(hits: map<Key, Bucket>, key: Key, now: real, then_: real)
    requires key in hits && Sorted(hits[key]) && now <= then_ && WaitFor(hits, key, now).Some?
    ensures WaitFor(hits, key, then_).Some? <==> then_ < Deciding(LiveAt(hits, key, now), key) + WINDOW_S
  {
    var b, limit := hits[key], Limit(key);
    var n, m := FirstAfter(b, now - WINDOW_S, 0), FirstAfter(b, then_ - WINDOW_S, 0);
    var d := |b| - limit;
    assert Deciding(LiveAt(hits, key, now), key) == b[d];
    assert m <= d ==> b[m] <= b[d];
    assert d < m ==> b[d] <= then_ - WINDOW_S;
  }

  /** The wait that is returned is never too long, and it is exact precisely when no live entry lies
      between the oldest and the deciding one; with exactly the limit of live failures it always is. */
  lemma WaitIsExact(hits: map<Key, Bucket>, key: Key, now: real)
    requires key in hits && Sorted(hits[key]) && WaitFor(hits, key, now).Some?
    ensures var (wait, live) := (WaitFor(hits, key, now).value, LiveAt(hits, key, now));
            && wait > 0.0
            && (forall t :: now <= t < now + wait ==> WaitFor(hits, key, t).Some?)
            && (WaitFor(hits, key, now + wait).None? <==> live[0] == Deciding(live, key))
            && (|live| == Limit(key) ==> live[0] == Deciding(live, key))
  {
    var wait, live := WaitFor(hits, key, now).value, LiveAt(hits, key, now);
    assert Sorted(live) by {
      PruneThenSince(hits[key], now - WINDOW_S, now);
    }
    assert live[0] <= Deciding(live, key);
    forall t | now <= t < now + wait
      ensures WaitFor(hits, key, t).Some?
    {
      RefusedUntil(hits, key, now, t);
    }
    RefusedUntil(hits, key, now, now + wait);
  }

  /** A call of `record_failure` at 0 s, at 1 s, and so on, `n` in all. */
  function OneASecond(key: Key, n: nat): map<Key, Bucket> {
    if n == 0 then map[] else RecordedAll(OneASecond(key, n - 1), [key, GLOBAL], 2, (n - 1) as real)
  }

  function Seconds(n: nat): Bucket {
    seq(n, i => i as real)
  }

  /** What one call does to the key's own bucket. */
  lemma CallRecords(hits: map<Key, Bucket>, key: Key, now: real)
    requires key != GLOBAL && hits.Keys <= {key, GLOBAL}
    ensures var after := RecordedAll(hits, [key, GLOBAL], 2, now);
            after.Keys <= {key, GLOBAL} && BucketOf(after, key) == Grown(BucketOf(hits, key), now)
  {
    hide Recorded, Grown, TwoBuckets;
    var s0 := State(hits, [], now);
    var s1 := After(s0, Fail(key, now));
    var s2 := After(s1, Fail(GLOBAL, now));
    assert RecordedAll(hits, [key, GLOBAL], 2, now) == s2.hits by {
      assert RecordedAll(hits, [key, GLOBAL], 1, now) == Recorded(RecordedAll(hits, [key, GLOBAL], 0, now), key, now);
    }
    assert TwoBuckets(s0, key) by {
      TwoBucketsIs(s0, key);
    }
    FailGrows(s0, key, now, s1);
    FailKeepsTwoBuckets(s0, key, key, now, s1);
    TwoBucketsAreFew(s1, key);
    OtherFailLeaves(s1, GLOBAL, key, now, s2);
    FailKeepsTwoBuckets(s1, key, GLOBAL, now, s2);
    TwoBucketsIs(s2, key);
  }

  lemma TwoBucketsIs(s: State, key: Key)
    ensures TwoBuckets(s, key) <==> s.hits.Keys <= {key, GLOBAL}
  {
  }

  lemma {:induction false} OneASecondIs(key: Key, n: nat)
    requires n <= 11 && key != GLOBAL
    ensures OneASecond(key, n).Keys <= {key, GLOBAL} && BucketOf(OneASecond(key, n), key) == Seconds(n)
  {
    hide RecordedAll, Grown;
    if n > 0 {
      OneASecondIs(key, n - 1);
      CallRecords(OneASecond(key, n - 1), key, (n - 1) as real);
      GrownAtTheEnd(Seconds(n - 1), (n - 1) as real);
      assert Seconds(n - 1) + [(n - 1) as real] == Seconds(n);
    }
  }

  /** Eleven failures a second apart: when the wait is over the key is still refused. */
  lemma ElevenFailuresOutlastTheWait(key: Key)
    requires key != GLOBAL
    ensures var hits := OneASecond(key, 11);
            WaitFor(hits, key, 10.0) == Some(890.0) && WaitFor(hits, key, 900.0).Some?
  {
    hide OneASecond;
    OneASecondIs(key, 11);
    SinceIs(Seconds(11), 10.0 - WINDOW_S, 0);
    SinceIs(Seconds(11), 900.0 - WINDOW_S, 1);
  }

  // ----- Delays -------------------------------------------------------------------------

  predicate PastLimit(hits: map<Key, Bucket>, key: Key, now: real) {
    |LiveAt(hits, key, now)| > Limit(key)
  }

  ghost predicate SomePastLimit(hits: map<Key, Bucket>, keys: seq<Key>, n: nat, now: real)
    requires n <= |keys|
  {
    exists k :: 0 <= k < n && PastLimit(hits, keys[k], now)
  }

  lemma OneMoreKey(hits: map<Key, Bucket>, keys: seq<Key>, n: nat, now: real)
    requires n < |keys|
    ensures SomePastLimit(hits, keys, n + 1, now)
       <==> SomePastLimit(hits, keys, n, now) || PastLimit(hits, keys[n], now)
  {
  }

  lemma DelayIsPositive(hits: map<Key, Bucket>, key: Key, now: real)
    ensures DelayOf(hits, key, now) >= 0.0 && (DelayOf(hits, key, now) > 0.0 <==> PastLimit(hits, key, now))
  {
  }

  /** An attempt waits at least as long as each of its buckets asks. */
  lemma {:induction false} WorstIsTheLongest(hits: map<Key, Bucket>, keys: seq<Key>, n: nat, now: real, k: nat)
    requires k < n <= |keys|
    ensures DelayOf(hits, keys[k], now) <= Worst(hits, keys, n, now)
  {
    if k < n - 1 {
      WorstIsTheLongest(hits, keys, n - 1, now, k);
    }
  }

  /** It waits at all exactly when some bucket is past its limit. */
  lemma {:induction false} OnlyFullBucketsDelay(hits: map<Key, Bucket>, keys: seq<Key>, n: nat, now: real)
    requires n <= |keys|
    ensures Worst(hits, keys, n, now) > 0.0 <==> SomePastLimit(hits, keys, n, now)
  {
    if n > 0 {
      OnlyFullBucketsDelay(hits, keys, n - 1, now);
      DelayIsPositive(hits, keys[n - 1], now);
      OneMoreKey(hits, keys, n - 1, now);
    }
  }

  // ----- Eviction -----------------------------------------------------------------------

  /** However full the table, recording under another key never forgets a live global failure. */
  lemma GlobalFailuresSurvive(hits: map<Key, Bucket>, key: Key, now: real)
    requires key != GLOBAL && Sorted(BucketOf(hits, GLOBAL))
    ensures LiveAt(Recorded(hits, key, now), GLOBAL, now) == LiveAt(hits, GLOBAL, now)
  {
    var b, cutoff := BucketOf(hits, GLOBAL), now - WINDOW_S;
    if GLOBAL in hits && GLOBAL !in Recorded(hits, key, now) {
      assert Dead(b, now);
      SinceIs(b, cutoff, |b|);
    }
  }

  // ----- How long an attempt waits ----------------------------------------------------------

  /** Each live failure past the limit adds a quarter of a second, up to three seconds in all. */
  lemma DelayGrowsByQuarters(hits: map<Key, Bucket>, key: Key, now: real, live: nat)
    requires live == |LiveAt(hits, key, now)|
    ensures var (limit, delay) := (if key == GLOBAL then 60 else 10, DelayOf(hits, key, now));
            && (live <= limit ==> delay == 0.0)
            && (limit < live <= limit + 12 ==> 4.0 * delay == (live - limit) as real)
            && (limit + 12 <= live ==> delay == 3.0)
  {
  }

  /** What an attempt waits is what one of its buckets says, if it waits at all. */
  lemma {:induction false} WorstIsOneOfThem(hits: map<Key, Bucket>, keys: seq<Key>, n: nat, now: real)
    requires n <= |keys|
    ensures Worst(hits, keys, n, now) == 0.0
            || exists k :: 0 <= k < n && DelayOf(hits, keys[k], now) == Worst(hits, keys, n, now)
  {
    hide DelayOf;
    if n > 0 {
      WorstIsOneOfThem(hits, keys, n - 1, now);
    }
  }
}
