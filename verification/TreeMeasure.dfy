/** Remembering a tree's size until the tree changes (backend/app/core/paths.py:310-382). */
module TreeMeasure {
  import opened Options
  import opened Runs

  type Key = string
  type WalkId = nat

  datatype Size = Size(bytes: nat, files: nat)

  datatype Measured = Measured(time: real, size: Size)

  /** What the module holds. `events` numbers everything that happens; `forgotten` is the number of the
      last invalidation, and `origins` tells when the walk behind each cached entry began. */
  datatype Memory = Memory(generation: nat, cache: map<Key, Measured>, events: nat, forgotten: nat, origins: map<Key, nat>)

  function Empty(): Memory {
    Memory(0, map[], 0, 0, map[])
  }

  /** A cached size young enough for the caller. */
  function Remembered(m: Memory, key: Key, maxAge: real, now: real): Option<Size> {
    if maxAge > 0.0 && key in m.cache && now - m.cache[key].time < maxAge then Some(m.cache[key].size) else None
  }

  /** A walk under way: the generation it noted, and when it began. */
  datatype Walk = Walk(key: Key, generation: nat, began: nat)

  function Noted(m: Memory, key: Key): Walk {
    Walk(key, m.generation, m.events)
  }

  function Happened(m: Memory): Memory {
    m.(events := m.events + 1)
  }

  /** A walk that ends is cached only if nothing was invalidated since it began. */
  function Finished(m: Memory, w: Walk, size: Size, now: real): Memory {
    if w.generation == m.generation then
      m.(cache := m.cache[w.key := Measured(now, size)], origins := m.origins[w.key := w.began], events := m.events + 1)
    else m.(events := m.events + 1)
  }

  /** `forget_tree_measurements`. */
  function Forgotten(m: Memory): Memory {
    Memory(m.generation + 1, map[], m.events + 1, m.events, map[])
  }

  /** The module's own variables; the rest is history. */
  class TreeMeasurements {
    var generation: nat
    var cache: map<Key, Measured>
    ghost var events: nat
    ghost var forgotten: nat
    ghost var origins: map<Key, nat>

    ghost function Now(): Memory
      reads this
    {
      Memory(generation, cache, events, forgotten, origins)
    }

    constructor ()
      ensures Now() == Empty()
    {
      generation, cache, events, forgotten, origins := 0, map[], 0, 0, map[];
    }

    /** `measure_tree`, up to the walk: an answer at once, or the generation to walk under. */
    method Begin(key: Key, maxAge: real, now: real) returns (answer: Option<Size>, noted: nat, ghost walk: Walk)
      modifies `events
      ensures answer == Remembered(old(Now()), key, maxAge, now)
      ensures walk == Noted(old(Now()), key) && noted == walk.generation && Now() == Happened(old(Now()))
    {
      answer, noted, walk := None, generation, Noted(Now(), key);
      if maxAge > 0.0 && key in cache && now - cache[key].time < maxAge {
        answer := Some(cache[key].size);
      }
      events := events + 1;
    }

    /** `measure_tree`, after the walk. */
    method Finish(key: Key, noted: nat, size: Size, now: real, ghost walk: Walk)
      requires walk.key == key && walk.generation == noted
      modifies this
      ensures Now() == Finished(old(Now()), walk, size, now)
    {
      if noted == generation {
        cache := cache[key := Measured(now, size)];
        origins := origins[key := walk.began];
      }
      events := events + 1;
    }

    /** `forget_tree_measurements`. */
    method Forget()
      modifies this
      ensures Now() == Forgotten(old(Now()))
    {
      generation := generation + 1;
      cache := map[];
      origins, forgotten, events := map[], events, events + 1;
    }
  }

  // ----- Any interleaving of walks and invalidations --------------------------------------

  datatype System = System(memory: Memory, walks: map<WalkId, Walk>)

  datatype Action =
    | Begin(id: WalkId, key: Key)
    | Finish(id: WalkId, size: Size, now: real)
    | Abandon(id: WalkId)
    | Forget

  predicate Enabled(s: System, a: Action) {
    match a
    case Begin(id, _) => id !in s.walks
    case Finish(id, _, _) => id in s.walks
    case Abandon(id) => id in s.walks
    case Forget => true
  }

  function Act(s: System, a: Action): System
    requires Enabled(s, a)
  {
    match a
    case Begin(id, key) => System(Happened(s.memory), s.walks[id := Noted(s.memory, key)])
    case Finish(id, size, now) => System(Finished(s.memory, s.walks[id], size, now), s.walks - {id})
    case Abandon(id) => s.(walks := s.walks - {id})
    case Forget => s.(memory := Forgotten(s.memory))
  }

  /** Nothing was invalidated since event `began`. */
  predicate StillTrue(m: Memory, began: nat) {
    m.forgotten < began || m.generation == 0
  }

  ghost predicate CacheIsCurrent(s: System) {
    && s.memory.cache.Keys == s.memory.origins.Keys
    && (s.memory.generation > 0 ==> s.memory.forgotten < s.memory.events)
    && forall key :: key in s.memory.origins ==> StillTrue(s.memory, s.memory.origins[key])
  }

  /** A walk of the present generation began after the last invalidation. */
  ghost predicate WalksAreCurrent(s: System) {
    forall id :: id in s.walks ==>
      && s.walks[id].generation <= s.memory.generation
      && (s.walks[id].generation == s.memory.generation ==> StillTrue(s.memory, s.walks[id].began))
  }

  ghost predicate Inv(s: System) {
    CacheIsCurrent(s) && WalksAreCurrent(s)
  }

  ghost predicate Starts(s: System) {
    s == System(Empty(), map[])
  }

  ghost predicate Step(s: System, a: Action, after: System) {
    Enabled(s, a) && after == Act(s, a)
  }

  ghost predicate IsRun(run: seq<System>, actions: seq<Action>) {
    IsRunOf(run, actions, Starts, Step)
  }

  lemma RunKeepsInv(run: seq<System>, actions: seq<Action>, n: nat)
    requires IsRun(run, actions) && n < |run|
    ensures CacheIsCurrent(run[n]) && WalksAreCurrent(run[n])
  {
    RunKeeps(run, actions, Starts, Step, Inv, n);
  }

  /** Whatever the interleaving, a size served from the cache was measured by a walk that began after the
      last invalidation. */
  lemma CachedSizeIsNotStale(run: seq<System>, actions: seq<Action>, n: nat, key: Key, maxAge: real, now: real)
    requires IsRun(run, actions) && n < |run| && Remembered(run[n].memory, key, maxAge, now).Some?
    ensures key in run[n].memory.origins
    ensures run[n].memory.generation > 0 ==> run[n].memory.forgotten < run[n].memory.origins[key]
  {
    RunKeepsInv(run, actions, n);
    assert StillTrue(run[n].memory, run[n].memory.origins[key]);
  }

  /** A walk overtaken by an invalidation leaves the cache as it is. */
  lemma OvertakenWalkIsNotCached(run: seq<System>, actions: seq<Action>, n: nat, id: WalkId, size: Size, now: real)
    requires IsRun(run, actions) && n < |run| && id in run[n].walks
    requires run[n].walks[id].began <= run[n].memory.forgotten && run[n].memory.generation > 0
    ensures Act(run[n], Finish(id, size, now)).memory.cache == run[n].memory.cache
  {
    RunKeepsInv(run, actions, n);
  }

  // ----- What the cache says, told from what happened ---------------------------------------

  /** The key of the walk that began last under an identity. */
  function WalkedKey(actions: seq<Action>, n: nat, id: WalkId): Option<Key>
    requires n <= |actions|
  {
    if n == 0 then None
    else if actions[n - 1].Begin? && actions[n - 1].id == id then Some(actions[n - 1].key)
    else WalkedKey(actions, n - 1, id)
  }

  /** Nothing was forgotten since that walk began. */
  predicate IsUndisturbed(actions: seq<Action>, n: nat, id: WalkId)
    requires n <= |actions|
  {
    if n == 0 || actions[n - 1].Forget? then false
    else if actions[n - 1].Begin? && actions[n - 1].id == id then true
    else IsUndisturbed(actions, n - 1, id)
  }

  /** The latest measurement of a key by a walk that was not disturbed, since anything was forgotten. */
  function LatestMeasured(actions: seq<Action>, n: nat, key: Key): Option<Measured>
    requires n <= |actions|
  {
    if n == 0 then None
    else
      var before := LatestMeasured(actions, n - 1, key);
      match actions[n - 1]
      case Finish(id, size, now) =>
        if IsUndisturbed(actions, n - 1, id) && WalkedKey(actions, n - 1, id) == Some(key) then Some(Measured(now, size))
        else before
      case Forget => None
      case _ => before
  }

  /** The walk under way is the one that began last, and is of the present generation exactly when nothing
      was forgotten since. */
  ghost predicate WalkIsTold(s: System, actions: seq<Action>, n: nat, id: WalkId)
    requires n <= |actions|
  {
    id in s.walks ==>
      && Some(s.walks[id].key) == WalkedKey(actions, n, id)
      && s.walks[id].generation <= s.memory.generation
      && (s.walks[id].generation == s.memory.generation <==> IsUndisturbed(actions, n, id))
  }

  lemma {:induction false} WalksAreTold(run: seq<System>, actions: seq<Action>, n: nat, id: WalkId)
    requires IsRun(run, actions) && n < |run|
    ensures WalkIsTold(run[n], actions, n, id)
  {
    if n > 0 {
      WalksAreTold(run, actions, n - 1, id);
      assert StepsAt(run, actions, Step, n - 1);
    }
  }

  /** Whatever the interleaving, the cache holds for each key exactly its latest undisturbed measurement,
      and the time it was made. */
  lemma {:induction false} CacheIsLatest(run: seq<System>, actions: seq<Action>, n: nat, key: Key)
    requires IsRun(run, actions) && n < |run|
    ensures var cache := run[n].memory.cache;
            (if key in cache then Some(cache[key]) else None) == LatestMeasured(actions, n, key)
  {
    if n > 0 {
      CacheIsLatest(run, actions, n - 1, key);
      assert StepsAt(run, actions, Step, n - 1);
      if actions[n - 1].Finish? {
        WalksAreTold(run, actions, n - 1, actions[n - 1].id);
      }
    }
  }

  /** A size is served at once exactly when the latest undisturbed measurement gave it and is younger than
      the caller allows. */
  lemma ServedIff(run: seq<System>, actions: seq<Action>, n: nat, key: Key, maxAge: real, now: real, size: Size)
    requires IsRun(run, actions) && n < |run|
    ensures var latest := LatestMeasured(actions, n, key);
            Remembered(run[n].memory, key, maxAge, now) == Some(size)
            <==> latest.Some? && latest.value.size == size && maxAge > 0.0 && now < latest.value.time + maxAge
  {
    CacheIsLatest(run, actions, n, key);
  }
}
