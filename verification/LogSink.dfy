/** The deduplicating log buffer (backend/app/core/logging.py:307-448, 489-514). Every function here
    is what happens while the sink's lock is held; the clock is a parameter. */
module LogSink {
  import opened Options

  /** What makes two records the same message. */
  datatype Identity = Identity(level: string, logger: string, message: string,
                               recording: Option<int>, job: Option<int>, stage: string)

  datatype Record = Record(identity: Identity, severity: int, context: string)

  /** A row to write: a record, or how often the last one like it was repeated. */
  datatype Row = Original(record: Record) | Summary(last: Record, times: nat)

  datatype Entry = Entry(identity: Identity, started: real, suppressed: nat, last: Record)

  const MAX_DEDUPE_KEYS: nat := 1024
  const MAX_BATCH: nat := 500
  const LEAST_CAPACITY: nat := 16

  datatype Config = Config(window: real, capacity: nat)

  /** The buffer, its counters, and their history: every row ever put on the queue, what became of
      each that left it (taken, or dropped), and how many records were below the level. */
  datatype State = State(queue: seq<Row>, dedupe: seq<Entry>, seen: nat, enqueued: nat, suppressed: nat, dropped: nat,
                         log: seq<Row>, taken: seq<bool>, filtered: nat)

  function Initial(): State {
    State([], [], 0, 0, 0, 0, [], [], 0)
  }

  /** The length the queue may not pass. */
  function Bound(c: Config): (n: nat)
    ensures n >= LEAST_CAPACITY
  {
    if c.capacity < LEAST_CAPACITY then LEAST_CAPACITY else c.capacity
  }

  /** `_enqueue_locked`: a full queue loses its oldest row. */
  function Enqueue(c: Config, s: State, row: Row): State {
    if s.queue != [] && |s.queue| == Bound(c) then
      s.(queue := s.queue[1..] + [row], enqueued := s.enqueued + 1, dropped := s.dropped + 1,
         log := s.log + [row], taken := s.taken + [false])
    else
      s.(queue := s.queue + [row], enqueued := s.enqueued + 1, log := s.log + [row])
  }

  /** Put the summary of a window on the queue, if it has anything to say. */
  function Summarise(c: Config, s: State, e: Entry): State {
    if e.suppressed > 0 then Enqueue(c, s, Summary(e.last, e.suppressed)) else s
  }

  function Without<T>(s: seq<T>, i: nat): seq<T>
    requires i < |s|
  {
    s[..i] + s[i + 1..]
  }

  /** Close one window. */
  function Retire(c: Config, s: State, i: nat): State
    requires i < |s.dedupe|
  {
    Summarise(c, s.(dedupe := Without(s.dedupe, i)), s.dedupe[i])
  }

  /** The first of the windows that started earliest. */
  function Oldest(dedupe: seq<Entry>): (i: nat)
    requires dedupe != []
    ensures i < |dedupe|
    ensures forall j :: 0 <= j < |dedupe| ==>
              dedupe[i].started <= dedupe[j].started && (j < i ==> dedupe[i].started < dedupe[j].started)
  {
    if |dedupe| == 1 then 0
    else
      var before := Oldest(dedupe[..|dedupe| - 1]);
      if dedupe[|dedupe| - 1].started < dedupe[before].started then |dedupe| - 1 else before
  }

  /** `_trim_dedupe_locked`. */
  function Trim(c: Config, s: State): State
    decreases |s.dedupe|
  {
    if |s.dedupe| > MAX_DEDUPE_KEYS then Trim(c, Retire(c, s, Oldest(s.dedupe))) else s
  }

  /** Where the window of a message is, or the length when it has none. */
  function Find(dedupe: seq<Entry>, identity: Identity): (i: nat)
    ensures i <= |dedupe| && (i < |dedupe| ==> dedupe[i].identity == identity)
    ensures forall j :: 0 <= j < i ==> dedupe[j].identity != identity
  {
    if dedupe == [] then 0
    else if dedupe[0].identity == identity then 0
    else Find(dedupe[1..], identity) + 1
  }

  predicate Open(c: Config, e: Entry, now: real) {
    now - e.started < (if c.window < 0.0 then 0.0 else c.window)
  }

  /** Put a fresh window for the record in place of its old one, or last. */
  function Reopened(c: Config, s: State, record: Record, now: real): State {
    var i := Find(s.dedupe, record.identity);
    var window := Entry(record.identity, now, 0, record);
    if i < |s.dedupe| then Summarise(c, s.(dedupe := s.dedupe[i := window]), s.dedupe[i])
    else s.(dedupe := s.dedupe + [window])
  }

  function Stored(c: Config, s: State, record: Record, now: real): State {
    Enqueue(c, Trim(c, Reopened(c, s, record, now)), Original(record))
  }

  /** Same message again inside its window: counted, not stored. */
  function Repeated(s: State, i: nat, record: Record): State
    requires i < |s.dedupe|
  {
    var e := s.dedupe[i];
    s.(suppressed := s.suppressed + 1, dedupe := s.dedupe[i := e.(suppressed := e.suppressed + 1, last := record)])
  }

  /** `emit`. */
  function Emitted(c: Config, level: int, s: State, record: Record, force: bool, now: real): State {
    var seen := s.(seen := s.seen + 1);
    if !force && record.severity < level then seen.(filtered := s.filtered + 1)
    else
      var i := Find(s.dedupe, record.identity);
      if i < |s.dedupe| && Open(c, s.dedupe[i], now) then
        Repeated(seen, i, record)
      else Stored(c, seen, record, now)
  }

  /** `_sweep_locked`, from the `i`-th window on. */
  function Sweep(c: Config, s: State, i: nat, force: bool, now: real): State
    requires i <= |s.dedupe|
    decreases |s.dedupe| - i
  {
    if i == |s.dedupe| then s
    else if !force && Open(c, s.dedupe[i], now) then Sweep(c, s, i + 1, force, now)
    else Sweep(c, Retire(c, s, i), i, force, now)
  }

  function BatchSize(s: State): nat {
    if |s.queue| < MAX_BATCH then |s.queue| else MAX_BATCH
  }

  /** `_take_locked`. */
  function Take(s: State): State {
    s.(queue := s.queue[BatchSize(s)..], taken := s.taken + seq(BatchSize(s), i => true))
  }

  /** One turn of `flush`: sweep, then take. */
  function Drained(c: Config, s: State, force: bool, now: real): State {
    Take(Sweep(c, s, 0, force, now))
  }

  /** The sink itself. The log, what was taken of it, and the count of filtered records are history. */
  class DatabaseLogSink {
    const config: Config
    var minLevel: int
    var queue: seq<Row>
    var dedupe: seq<Entry>
    var seen: nat
    var enqueued: nat
    var suppressed: nat
    var dropped: nat
    ghost var log: seq<Row>
    ghost var taken: seq<bool>
    ghost var filtered: nat

    ghost function Now(): State
      reads this
    {
      State(queue, dedupe, seen, enqueued, suppressed, dropped, log, taken, filtered)
    }

    constructor (config: Config, level: int)
      ensures this.config == config && minLevel == level && Now() == Initial()
    {
      this.config, minLevel := config, level;
      queue, dedupe, seen, enqueued, suppressed, dropped := [], [], 0, 0, 0, 0;
      log, taken, filtered := [], [], 0;
    }

    /** `set_min_level`. */
    method SetMinLevel(level: int)
      modifies `minLevel
      ensures minLevel == level
    {
      minLevel := level;
    }

    method EnqueueLocked(row: Row)
      modifies `queue, `enqueued, `dropped, `log, `taken
      ensures Now() == Enqueue(config, old(Now()), row)
    {
      if queue != [] && |queue| == Bound(config) {
        dropped := dropped + 1;
        taken := taken + [false];
        queue := queue[1..];
      }
      queue := queue + [row];
      enqueued := enqueued + 1;
      log := log + [row];
    }

    method RetireLocked(i: nat)
      requires i < |dedupe|
      modifies `queue, `dedupe, `enqueued, `dropped, `log, `taken
      ensures Now() == Retire(config, old(Now()), i)
    {
      var e := dedupe[i];
      dedupe := Without(dedupe, i);
      if e.suppressed > 0 {
        EnqueueLocked(Summary(e.last, e.suppressed));
      }
    }

    method TrimLocked()
      modifies `queue, `dedupe, `enqueued, `dropped, `log, `taken
      ensures Now() == Trim(config, old(Now()))
    {
      while |dedupe| > MAX_DEDUPE_KEYS
        invariant Trim(config, Now()) == Trim(config, old(Now()))
        decreases |dedupe|
      {
        RetireLocked(Oldest(dedupe));
      }
    }

    method ReopenLocked(record: Record, now: real)
      modifies `queue, `dedupe, `enqueued, `dropped, `log, `taken
      ensures Now() == Reopened(config, old(Now()), record, now)
    {
      var i := Find(dedupe, record.identity);
      var window := Entry(record.identity, now, 0, record);
      if i < |dedupe| {
        var e := dedupe[i];
        dedupe := dedupe[i := window];
        if e.suppressed > 0 {
          EnqueueLocked(Summary(e.last, e.suppressed));
        }
      } else {
        dedupe := dedupe + [window];
      }
    }

    method StoreLocked(record: Record, now: real)
      modifies `queue, `dedupe, `enqueued, `dropped, `log, `taken
      ensures Now() == Stored(config, old(Now()), record, now)
    {
      ReopenLocked(record, now);
      TrimLocked();
      EnqueueLocked(Original(record));
    }

    /** `emit`. */
    method Emit(record: Record, force: bool, now: real)
      modifies this
      ensures Now() == Emitted(config, minLevel, old(Now()), record, force, now) && minLevel == old(minLevel)
    {
      hide Enqueue, Stored;
      ghost var before := Now();
      seen := seen + 1;
      assert Now() == before.(seen := before.seen + 1);
      if !force && record.severity < minLevel {
        filtered := filtered + 1;
        return;
      }
      var i := Find(dedupe, record.identity);
      if i < |dedupe| && Open(config, dedupe[i], now) {
        dedupe := dedupe[i := dedupe[i].(suppressed := dedupe[i].suppressed + 1, last := record)];
        suppressed := suppressed + 1;
        return;
      }
      StoreLocked(record, now);
    }

    method SweepLocked(force: bool, now: real)
      modifies `queue, `dedupe, `enqueued, `dropped, `log, `taken
      ensures Now() == Sweep(config, old(Now()), 0, force, now)
    {
      var i := 0;
      while i < |dedupe|
        invariant i <= |dedupe|
        invariant Sweep(config, Now(), i, force, now) == Sweep(config, old(Now()), 0, force, now)
        decreases |dedupe| - i
      {
        if !force && Open(config, dedupe[i], now) {
          i := i + 1;
        } else {
          RetireLocked(i);
        }
      }
    }

    method TakeLocked() returns (batch: seq<Row>)
      modifies `queue, `taken
      ensures Now() == Take(old(Now())) && batch == old(queue)[..BatchSize(old(Now()))]
    {
      batch := [];
      ghost var all, before := queue, taken;
      while queue != [] && |batch| < MAX_BATCH
        invariant |batch| <= MAX_BATCH && all == batch + queue
        invariant taken == before + seq(|batch|, i => true)
        decreases |queue|
      {
        batch := batch + [queue[0]];
        queue := queue[1..];
        taken := taken + [true];
      }
      assert |batch| == BatchSize(old(Now()));
    }
  }
}
