/** Throttling sign-in by a sliding window of failures (backend/app/auth/ratelimit.py:36-146). The
    clock is a parameter and never runs backwards. */
module RateLimit {
  import opened Options
  import opened Reals

  type Key = string
  type Bucket = seq<real>

  const KEY_LIMIT: nat := 10
  const GLOBAL_LIMIT: nat := 60
  const WINDOW_S: real := 900.0
  const MAX_DELAY_S: real := 3.0
  const MAX_KEYS: nat := 4096
  const GLOBAL: Key := "\0global"

  function Limit(key: Key): nat {
    if key == GLOBAL then GLOBAL_LIMIT else KEY_LIMIT
  }

  /** Where the entries after the cutoff begin, looking from `i` on. */
  function FirstAfter(b: Bucket, cutoff: real, i: nat): (n: nat)
    requires i <= |b|
    ensures i <= n <= |b| && (n < |b| ==> b[n] > cutoff)
    ensures forall k :: i <= k < n ==> b[k] <= cutoff
    decreases |b| - i
  {
    if i < |b| && b[i] <= cutoff then FirstAfter(b, cutoff, i + 1) else i
  }

  /** `_prune`, from the cutoff. */
  function Prune(b: Bucket, cutoff: real): (kept: Bucket)
    ensures kept == [] || kept[0] > cutoff
  {
    b[FirstAfter(b, cutoff, 0)..]
  }

  predicate Dead(b: Bucket, now: real) {
    b == [] || b[|b| - 1] <= now - WINDOW_S
  }

  /** `_evict`: the dead buckets, or everything but the global one when none is dead enough. */
  function Evicted(hits: map<Key, Bucket>, now: real): (kept: map<Key, Bucket>)
    ensures forall key :: key in kept ==> key in hits && kept[key] == hits[key]
    ensures |kept| < MAX_KEYS
  {
    var alive := map key | key in hits && !Dead(hits[key], now) :: hits[key];
    if |alive| < MAX_KEYS then alive
    else
      SmallKeep(alive);
      map key | key in alive && key == GLOBAL :: alive[key]
  }

  lemma SmallKeep(hits: map<Key, Bucket>)
    ensures |map key | key in hits && key == GLOBAL :: hits[key]| <= 1
  {
    var keep := map key | key in hits && key == GLOBAL :: hits[key];
    if GLOBAL in hits {
      assert keep.Keys == {GLOBAL};
    } else {
      assert keep.Keys == {};
    }
    assert |keep| == |keep.Keys|;
  }

  function BucketOf(hits: map<Key, Bucket>, key: Key): Bucket {
    if key in hits then hits[key] else []
  }

  /** One key of `record_failure`. */
  function Recorded(hits: map<Key, Bucket>, key: Key, now: real): map<Key, Bucket> {
    var room := if key !in hits && |hits| >= MAX_KEYS then Evicted(hits, now) else hits;
    var bucket := Prune(BucketOf(hits, key), now - WINDOW_S);
    room[key := if |bucket| < GLOBAL_LIMIT * 4 then bucket + [now] else bucket]
  }

  /** The first `n` of the keys. */
  function RecordedAll(hits: map<Key, Bucket>, keys: seq<Key>, n: nat, now: real): map<Key, Bucket>
    requires n <= |keys|
  {
    if n == 0 then hits else Recorded(RecordedAll(hits, keys, n - 1, now), keys[n - 1], now)
  }

  /** The entries a bucket still holds at an instant. */
  function LiveAt(hits: map<Key, Bucket>, key: Key, now: real): Bucket {
    Prune(BucketOf(hits, key), now - WINDOW_S)
  }

  /** How long a key is told to wait, if it is refused. */
  function WaitFor(hits: map<Key, Bucket>, key: Key, now: real): Option<real> {
    var live := LiveAt(hits, key, now);
    if |live| < Limit(key) then None else Some(Max(0.0, live[0] + WINDOW_S - now))
  }

  /** What one bucket adds to an attempt's delay. */
  function DelayOf(hits: map<Key, Bucket>, key: Key, now: real): real {
    var n := |LiveAt(hits, key, now)|;
    if n <= Limit(key) then 0.0 else Min(MAX_DELAY_S, 0.25 * (n - Limit(key)) as real)
  }

  /** The longest delay among the first `n` keys. */
  function Worst(hits: map<Key, Bucket>, keys: seq<Key>, n: nat, now: real): (worst: real)
    requires n <= |keys|
    ensures 0.0 <= worst <= MAX_DELAY_S
  {
    if n == 0 then 0.0 else Max(Worst(hits, keys, n - 1, now), DelayOf(hits, keys[n - 1], now))
  }

  /** Tidying a bucket at an instant: nothing else about the table changes. */
  function Tidied(hits: map<Key, Bucket>, key: Key, now: real): map<Key, Bucket> {
    if key in hits then hits[key := LiveAt(hits, key, now)] else hits
  }

  ghost predicate SameLive(a: map<Key, Bucket>, b: map<Key, Bucket>, now: real) {
    a.Keys == b.Keys && forall key :: key in a ==> LiveAt(a, key, now) == LiveAt(b, key, now)
  }

  lemma SameLiveSameDelay(a: map<Key, Bucket>, b: map<Key, Bucket>, key: Key, now: real)
    requires SameLive(a, b, now)
    ensures DelayOf(a, key, now) == DelayOf(b, key, now)
  {
    hide Prune;
    assert key in a ==> LiveAt(a, key, now) == LiveAt(b, key, now);
  }

  lemma PruneTwice(b: Bucket, cutoff: real)
    ensures Prune(Prune(b, cutoff), cutoff) == Prune(b, cutoff)
  {
    var kept := Prune(b, cutoff);
    assert FirstAfter(kept, cutoff, 0) == 0 && kept[0..] == kept;
  }

  lemma TidyKeepsLiveOf(hits: map<Key, Bucket>, key: Key, now: real, k: Key)
    ensures LiveAt(Tidied(hits, key, now), k, now) == LiveAt(hits, k, now)
  {
    if key in hits && k == key {
      var live := LiveAt(hits, key, now);
      PruneTwice(hits[key], now - WINDOW_S);
      assert BucketOf(Tidied(hits, key, now), k) == live;
    } else {
      assert BucketOf(Tidied(hits, key, now), k) == BucketOf(hits, k);
    }
  }

  lemma TidyKeepsLive(hits: map<Key, Bucket>, key: Key, now: real)
    ensures SameLive(Tidied(hits, key, now), hits, now)
  {
    assert Tidied(hits, key, now).Keys == hits.Keys;
    forall k | k in hits
      ensures LiveAt(Tidied(hits, key, now), k, now) == LiveAt(hits, k, now)
    {
      TidyKeepsLiveOf(hits, key, now, k);
    }
  }

  /** What the table is a digest of. */
  datatype Event = Failed(key: Key, time: real) | Succeeded(key: Key)

  ghost function FailedAll(keys: seq<Key>, n: nat, now: real): seq<Event>
    requires n <= |keys|
  {
    if n == 0 then [] else FailedAll(keys, n - 1, now) + [Failed(keys[n - 1], now)]
  }

  ghost function SucceededAll(keys: seq<Key>, n: nat): seq<Event>
    requires n <= |keys|
  {
    if n == 0 then [] else SucceededAll(keys, n - 1) + [Succeeded(keys[n - 1])]
  }

  /** The failures of a key after the cutoff and since its last success. */
  ghost function FailuresAfter(events: seq<Event>, key: Key, cutoff: real): nat {
    if events == [] then 0
    else
      var before := FailuresAfter(events[..|events| - 1], key, cutoff);
      match events[|events| - 1]
      case Failed(k, time) => if k == key && time > cutoff then before + 1 else before
      case Succeeded(k) => if k == key then 0 else before
  }

  class RateLimiter {
    var hits: map<Key, Bucket>
    ghost var events: seq<Event>

    constructor ()
      ensures hits == map[] && events == []
    {
      hits, events := map[], [];
    }

    /** `record_failure`. */
    method RecordFailure(keys: seq<Key>, now: real)
      modifies this
      ensures var all := keys + [GLOBAL];
              hits == RecordedAll(old(hits), all, |all|, now) && events == old(events) + FailedAll(all, |all|, now)
    {
      var all := keys + [GLOBAL];
      for i := 0 to |all|
        invariant hits == RecordedAll(old(hits), all, i, now)
        invariant events == old(events) + FailedAll(all, i, now)
      {
        RecordOne(all[i], now);
      }
    }

    method RecordOne(key: Key, now: real)
      modifies this
      ensures hits == Recorded(old(hits), key, now) && events == old(events) + [Failed(key, now)]
    {
      var bucket: Bucket := [];
      if key in hits {
        bucket := hits[key];
      } else if |hits| >= MAX_KEYS {
        hits := Evicted(hits, now);
      }
      bucket := Prune(bucket, now - WINDOW_S);
      if |bucket| < GLOBAL_LIMIT * 4 {
        bucket := bucket + [now];
      }
      hits := hits[key := bucket];
      events := events + [Failed(key, now)];
    }

    /** `record_success`. */
    method RecordSuccess(keys: seq<Key>)
      modifies this
      ensures hits == old(hits) - (set key | key in keys)
      ensures events == old(events) + SucceededAll(keys, |keys|)
    {
      for i := 0 to |keys|
        invariant hits == old(hits) - (set key | key in keys[..i])
        invariant events == old(events) + SucceededAll(keys, i)
      {
        hits := hits - {keys[i]};
        events := events + [Succeeded(keys[i])];
      }
      assert keys[..|keys|] == keys;
    }

    /** `retry_after`: one address, and only its own bucket. */
    method RetryAfter(address: Key, now: real) returns (wait: Option<real>)
      modifies `hits
      ensures wait == WaitFor(old(hits), address, now)
      ensures hits == Tidied(old(hits), address, now)
    {
      if address !in hits {
        return None;
      }
      hits := hits[address := Prune(hits[address], now - WINDOW_S)];
      var bucket := hits[address];
      if |bucket| < Limit(address) {
        return None;
      }
      return Some(Max(0.0, bucket[0] + WINDOW_S - now));
    }

    /** `delay_for`: never a refusal. */
    method DelayFor(keys: seq<Key>, now: real) returns (worst: real)
      modifies `hits
      ensures worst == Worst(old(hits), keys + [GLOBAL], |keys| + 1, now)
      ensures SameLive(hits, old(hits), now)
    {
      var all := keys + [GLOBAL];
      worst := 0.0;
      for i := 0 to |all|
        invariant worst == Worst(old(hits), all, i, now)
        invariant SameLive(hits, old(hits), now)
      {
        SameLiveSameDelay(hits, old(hits), all[i], now);
        var delay := DelayOne(all[i], now);
        worst := Max(worst, delay);
      }
    }

    method DelayOne(key: Key, now: real) returns (delay: real)
      modifies `hits
      ensures delay == DelayOf(old(hits), key, now) && SameLive(hits, old(hits), now)
    {
      TidyKeepsLive(hits, key, now);
      if key !in hits {
        return 0.0;
      }
      var live := Prune(hits[key], now - WINDOW_S);
      hits := hits[key := live];
      if |live| <= Limit(key) {
        return 0.0;
      }
      return Min(MAX_DELAY_S, 0.25 * (|live| - Limit(key)) as real);
    }
  }
}
